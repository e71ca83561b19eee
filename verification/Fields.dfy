// An independent reader of the texts the program prints: it takes a text apart at its
// separators, from the left or from the right.
module Fields {

  datatype Parts = Parts(head: string, tail: string)

  /** The text before the first separator, and the text behind it. */
  function SplitFirst(text: string, c: char): Parts {
    if text == "" then Parts("", "")
    else if text[0] == c then Parts("", text[1..])
    else
      var rest := SplitFirst(text[1..], c);
      Parts([text[0]] + rest.head, rest.tail)
  }

  /** The text before the last separator, and the text behind it. */
  function SplitLast(text: string, c: char): Parts
    decreases |text|
  {
    if text == "" then Parts("", "")
    else
      var n := |text| - 1;
      if text[n] == c then Parts(text[..n], "")
      else
        var rest := SplitLast(text[..n], c);
        Parts(rest.head, rest.tail + [text[n]])
  }

  /** The text before the separator number n, counted from 0, and the text behind it. */
  function SplitAt(text: string, c: char, n: nat): Parts
    decreases n
  {
    var first := SplitFirst(text, c);
    if n == 0 then first
    else
      var rest := SplitAt(first.tail, c, n - 1);
      Parts(first.head + [c] + rest.head, rest.tail)
  }

  /** How often c occurs. */
  function Count(text: string, c: char): nat {
    if text == "" then 0 else (if text[0] == c then 1 else 0) + Count(text[1..], c)
  }

  /** The text without its last n characters. */
  function DropLast(text: string, n: nat): string {
    if n <= |text| then text[..|text| - n] else ""
  }

  /** The text without its first n characters. */
  function Drop(text: string, n: nat): string {
    if n <= |text| then text[n..] else ""
  }

  lemma {:induction false} SplitFirstAt(head: string, c: char, tail: string)
    requires c !in head
    ensures SplitFirst(head + [c] + tail, c) == Parts(head, tail)
  {
    var text := head + [c] + tail;
    if head == "" {
      assert text[1..] == tail;
    } else {
      SplitFirstAt(head[1..], c, tail);
      assert text[1..] == head[1..] + [c] + tail;
    }
  }

  lemma {:induction false} SplitLastAt(head: string, c: char, tail: string)
    requires c !in tail
    ensures SplitLast(head + [c] + tail, c) == Parts(head, tail)
    decreases |tail|
  {
    var text := head + [c] + tail;
    var n := |text| - 1;
    if tail == "" {
      assert text[..n] == head;
    } else {
      var m := |tail| - 1;
      SplitLastAt(head, c, tail[..m]);
      assert text[..n] == head + [c] + tail[..m];
    }
  }

  lemma {:induction false} CountZero(text: string, c: char)
    requires Count(text, c) == 0
    ensures c !in text
  {
    if text != "" {
      CountZero(text[1..], c);
    }
  }

  /** A head with a known number of separators is found by counting them. */
  lemma {:induction false} SplitAtCount(head: string, c: char, tail: string, n: nat)
    requires Count(head, c) == n
    ensures SplitAt(head + [c] + tail, c, n) == Parts(head, tail)
    decreases n
  {
    hide SplitFirst, Count;
    if n == 0 {
      CountZero(head, c);
      SplitFirstAt(head, c, tail);
    } else {
      var x, y := FirstOf(head, c);
      SplitFirstAt(x, c, y + [c] + tail);
      assert head + [c] + tail == x + [c] + (y + [c] + tail);
      SplitAtCount(y, c, tail, n - 1);
    }
  }

  lemma {:induction false} FirstOf(text: string, c: char) returns (x: string, y: string)
    requires Count(text, c) > 0
    ensures text == x + [c] + y && c !in x && Count(y, c) == Count(text, c) - 1
  {
    if text[0] == c {
      x, y := "", text[1..];
    } else {
      x, y := FirstOf(text[1..], c);
      x := [text[0]] + x;
    }
  }
}
