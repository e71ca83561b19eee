// What every interleaving of front ends and back end keeps, and what follows for
// the log file.
module AsyncLoggingInvariant {
  import opened Fields
  import opened Numerals
  import opened Sequences
  import opened AsyncLogging

  // ------------------------------------------------------------ lists of buffers

  lemma DataOfSnoc(ps: seq<Pointer>, p: Pointer)
    ensures DataOf(ps + [p]) == DataOf(ps) + Data(p)
  {
    assert (ps + [p])[..|ps|] == ps;
  }

  lemma LinesOfSnoc(ps: seq<Pointer>, p: Pointer)
    ensures LinesOf(ps + [p]) == LinesOf(ps) + Lines(p)
  {
    assert (ps + [p])[..|ps|] == ps;
  }

  lemma {:induction false} DataOfCons(p: Pointer, ps: seq<Pointer>)
    ensures DataOf([p] + ps) == Data(p) + DataOf(ps)
    decreases |ps|
  {
    hide Data;
    if ps == [] {
      DataOfSnoc([], p);
      assert [p] + ps == [] + [p];
    } else {
      var n := |ps| - 1;
      DataOfCons(p, ps[..n]);
      assert [p] + ps == ([p] + ps[..n]) + [ps[n]];
      DataOfSnoc([p] + ps[..n], ps[n]);
    }
  }

  lemma KeptSnoc(lines: seq<string>, line: string)
    ensures Kept(lines + [line]) == Kept(lines) + if |line| < LARGE_BUFFER then [line] else []
  {
    assert (lines + [line])[..|lines|] == lines;
  }

  lemma TakenSnoc(rounds: seq<Round>, r: Round)
    ensures Taken(rounds + [r]) == Taken(rounds) + LinesOf(r.buffers)
  {
    assert (rounds + [r])[..|rounds|] == rounds;
  }

  /** The stamp of the last round does not matter for what it took. */
  lemma TakenRestamped(rounds: seq<Round>, stamp: string)
    requires rounds != []
    ensures var last := |rounds| - 1;
            && Taken(rounds[last := rounds[last].(stamp := stamp)]) == Taken(rounds)
            && Output(rounds[last := rounds[last].(stamp := stamp)])
               == Output(rounds[..last]) + Written(rounds[last].(stamp := stamp))
  {
    hide Written;
    var last := |rounds| - 1;
    var r := rounds[last := rounds[last].(stamp := stamp)];
    assert r[..last] == rounds[..last];
  }

  // ------------------------------------------------------------------ the buffer pool

  predicate SpareOrWillCome(spare: Pointer, toWrite: seq<Pointer>, n: nat) {
    spare == EMPTY || (spare.Null? && |toWrite| >= n)
  }

  /** Where the back end's two spare buffers are, or will come from. */
  predicate SparesInv(s: State) {
    match s.pc
    case Trim => s.spare1.Null? && |s.toWrite| >= 1 && SpareOrWillCome(s.spare2, s.toWrite, 2)
    case Write(i) =>
      && s.spare1.Null? && 1 <= |s.toWrite| <= MAX_BUFFERS && i <= |s.toWrite|
      && SpareOrWillCome(s.spare2, s.toWrite, 2)
    case Refill1 => s.spare1.Null? && 1 <= |s.toWrite| <= 2 && SpareOrWillCome(s.spare2, s.toWrite, 2)
    case Refill2 => s.spare1 == EMPTY && SpareOrWillCome(s.spare2, s.toWrite, 1)
    case _ => s.spare1 == EMPTY && s.spare2 == EMPTY && s.toWrite == []
  }

  /** currentBuffer_ is never null when the lock is free; nextBuffer_ is only if a filled buffer waits. */
  predicate PoolInv(s: State) {
    && !s.fault && s.current.Owns?
    && (s.next == EMPTY || (s.next.Null? && s.buffers != []))
    && SparesInv(s)
  }

  /** A buffer holds whole lines and never its full capacity. */
  predicate Whole(p: Pointer) {
    p.Owns? && p.buffer.data == Flatten(p.buffer.lines) && |p.buffer.data| < LARGE_BUFFER
  }

  predicate AllWhole(ps: seq<Pointer>) {
    forall i :: 0 <= i < |ps| ==> Whole(ps[i])
  }

  predicate WholeInv(s: State) {
    && Whole(s.current) && AllWhole(s.buffers) && AllWhole(s.toWrite)
    && (forall k :: 0 <= k < |s.rounds| ==> AllWhole(s.rounds[k].buffers))
  }

  predicate FrontInv(s: State) {
    Kept(s.lines) == Taken(s.rounds) + LinesOf(s.buffers) + Lines(s.current)
  }

  predicate BackInv(s: State) {
    match s.pc
    case Trim =>
      && s.rounds != [] && s.rounds[|s.rounds| - 1].buffers == s.toWrite
      && s.output == Output(s.rounds[..|s.rounds| - 1])
    case Write(i) => i <= |s.toWrite| && s.output + DataOf(s.toWrite[i..]) == Output(s.rounds)
    case _ => s.output == Output(s.rounds)
  }

  predicate Inv(s: State) {
    PoolInv(s) && WholeInv(s) && FrontInv(s) && BackInv(s)
  }

  // -------------------------------------------------------------------------- append

  lemma AppendToWhole(p: Pointer, line: string)
    requires Whole(p)
    ensures Whole(Owns(AppendTo(p.buffer, line)))
    ensures |line| < Avail(p.buffer) ==> AppendTo(p.buffer, line).lines == p.buffer.lines + [line]
    ensures |line| >= Avail(p.buffer) ==> AppendTo(p.buffer, line) == p.buffer
    ensures p == EMPTY ==> (|line| < Avail(p.buffer) <==> |line| < LARGE_BUFFER)
  {
    FlattenSnoc(p.buffer.lines, line);
  }

  lemma EmptyWhole()
    ensures Whole(EMPTY)
  {
  }

  lemma AppendPool(s: State, line: string)
    requires PoolInv(s)
    ensures PoolInv(DoAppend(s, line)) && DoAppend(s, line).pc == s.pc
  {
  }

  lemma AppendWhole(s: State, line: string)
    requires PoolInv(s) && WholeInv(s)
    ensures WholeInv(DoAppend(s, line))
  {
    hide Whole, AppendTo, SparesInv;
    EmptyWhole();
    AppendToWhole(s.current, line);
    AppendToWhole(EMPTY, line);
  }

  lemma AppendFront(s: State, line: string)
    requires PoolInv(s) && WholeInv(s) && FrontInv(s)
    ensures FrontInv(DoAppend(s, line))
  {
    hide SparesInv, Kept, Taken, LinesOf, Whole, AllWhole, AppendTo, Avail, FrontInv;
    EmptyWhole();
    AppendToWhole(s.current, line);
    AppendToWhole(EMPTY, line);
    var s' := DoAppend(s, line);
    if |line| < Avail(s.current.buffer) {
      FitsFront(s, line, s');
    } else {
      RollFront(s, line, s');
    }
  }

  lemma FitsFront(s: State, line: string, s': State)
    requires FrontInv(s) && s.current.Owns? && |line| < Avail(s.current.buffer)
    requires s'.lines == s.lines + [line] && s'.rounds == s.rounds && s'.buffers == s.buffers
    requires Lines(s'.current) == Lines(s.current) + [line]
    ensures FrontInv(s')
  {
    hide Kept, Taken, LinesOf, Lines;
    KeptSnoc(s.lines, line);
    assert |line| < LARGE_BUFFER;
    var front := Taken(s.rounds) + LinesOf(s.buffers);
    assert front + (Lines(s.current) + [line]) == (front + Lines(s.current)) + [line];
  }

  lemma RollFront(s: State, line: string, s': State)
    requires FrontInv(s) && s.current.Owns?
    requires s'.lines == s.lines + [line] && s'.rounds == s.rounds && s'.buffers == s.buffers + [s.current]
    requires Lines(s'.current) == if |line| < LARGE_BUFFER then [line] else []
    ensures FrontInv(s')
  {
    hide Kept, Taken, LinesOf, Lines;
    KeptSnoc(s.lines, line);
    LinesOfSnoc(s.buffers, s.current);
    var taken, mine := Taken(s.rounds), Lines(s'.current);
    assert taken + (LinesOf(s.buffers) + Lines(s.current)) == (taken + LinesOf(s.buffers)) + Lines(s.current);
  }

  lemma AppendBack(s: State, line: string)
    requires BackInv(s)
    ensures BackInv(DoAppend(s, line))
  {
    hide AppendTo, Output, DataOf;
  }

  lemma AppendKeeps(s: State, line: string)
    requires Inv(s)
    ensures Inv(DoAppend(s, line))
  {
    hide PoolInv, WholeInv, FrontInv, BackInv, DoAppend;
    AppendPool(s, line);
    AppendWhole(s, line);
    AppendFront(s, line);
    AppendBack(s, line);
  }

  // ------------------------------------------------------------------------ back end

  lemma SwapKeeps(s: State)
    requires Inv(s) && s.pc == Swap
    ensures Inv(DoSwap(s))
  {
    hide Kept, LinesOf, Taken, Output, Whole;
    EmptyWhole();
    var taken := s.buffers + [s.current];
    LinesOfSnoc(s.buffers, s.current);
    TakenSnoc(s.rounds, Round(taken, ""));
    NoLines();
    var s' := DoSwap(s);
    assert s'.rounds[..|s.rounds|] == s.rounds;
  }

  lemma NoLines()
    ensures LinesOf([]) == [] && Lines(EMPTY) == [] && DataOf([]) == ""
  {
  }

  lemma TrimBack(s: State, stamp: string)
    requires PoolInv(s) && s.pc == Trim && BackInv(s)
    ensures BackInv(DoTrim(s, stamp))
  {
    hide DataOf, Notice, Output, Taken, SparesInv, Written;
    TakenRestamped(s.rounds, stamp);
    WrittenParts(s.rounds[|s.rounds| - 1].(stamp := stamp));
    var s' := DoTrim(s, stamp);
    assert s'.toWrite[0..] == s'.toWrite;
    if |s.toWrite| > MAX_BUFFERS {
      var before, notice := Output(s.rounds[..|s.rounds| - 1]), Notice(stamp, |s.toWrite| - 2);
      assert before + (notice + DataOf(s'.toWrite)) == (before + notice) + DataOf(s'.toWrite);
    }
  }

  lemma WrittenParts(r: Round)
    ensures Written(r) == if |r.buffers| > MAX_BUFFERS then Notice(r.stamp, |r.buffers| - 2) + DataOf(r.buffers[..2])
                          else DataOf(r.buffers)
  {
  }

  lemma TrimKeeps(s: State, stamp: string)
    requires Inv(s) && s.pc == Trim
    ensures Inv(DoTrim(s, stamp))
  {
    hide Kept, LinesOf, Taken, Output, Whole, BackInv, Notice;
    InTrim(s);
    TrimBack(s, stamp);
    TakenRestamped(s.rounds, stamp);
  }

  lemma InTrim(s: State)
    requires BackInv(s) && s.pc == Trim
    ensures s.rounds != []
  {
  }

  lemma WriteBack(s: State, i: nat)
    requires PoolInv(s) && WholeInv(s) && s.pc == Write(i) && BackInv(s)
    ensures BackInv(DoWrite(s, i))
  {
    hide Output, DataOf;
    if i < |s.toWrite| {
      assert s.toWrite[i..] == [s.toWrite[i]] + s.toWrite[i + 1..];
      DataOfCons(s.toWrite[i], s.toWrite[i + 1..]);
    } else {
      assert s.toWrite[i..] == [];
      NoLines();
      assert s.output + "" == s.output;
    }
  }

  lemma WriteKeeps(s: State, i: nat)
    requires Inv(s) && s.pc == Write(i)
    ensures Inv(DoWrite(s, i))
  {
    hide FrontInv, BackInv;
    WriteBack(s, i);
    WriteFront(s, i);
  }

  lemma WriteFront(s: State, i: nat)
    requires FrontInv(s)
    ensures FrontInv(DoWrite(s, i))
  {
    hide Kept, Taken, LinesOf, Lines;
  }

  lemma RefillKeeps(s: State, stamp: string)
    requires Inv(s) && (s.pc == Refill1 || s.pc == Refill2 || s.pc == Top || s.pc == Done)
    ensures Inv(DoBack(s, stamp))
  {
    hide Flatten, Kept, Taken, LinesOf, Lines, Output;
  }

  lemma BackKeeps(s: State, stamp: string)
    requires Inv(s)
    ensures Inv(DoBack(s, stamp))
  {
    hide Inv, DoTop, DoSwap, DoTrim, DoWrite, DoRefill1, DoRefill2;
    match s.pc
    case Swap => SwapKeeps(s);
    case Trim => TrimKeeps(s, stamp);
    case Write(i) => WriteKeeps(s, i);
    case _ => RefillKeeps(s, stamp);
  }

  lemma StopKeeps(s: State)
    requires Inv(s)
    ensures Inv(s.(running := false))
  {
    hide Whole, Kept, Taken, LinesOf, Output, DataOf;
  }

  // ------------------------------------------------------------------------ every run

  lemma {:induction false} EveryRun(schedule: seq<Action>)
    ensures Inv(Exec(INIT, schedule))
    decreases |schedule|
  {
    hide Inv, DoAppend, DoBack;
    if schedule == [] {
      InitInv();
    } else {
      var s := Exec(INIT, schedule[..|schedule| - 1]);
      EveryRun(schedule[..|schedule| - 1]);
      match schedule[|schedule| - 1]
      case Append(line) => AppendKeeps(s, line);
      case Stop => StopKeeps(s);
      case Back(stamp) => BackKeeps(s, stamp);
    }
  }

  lemma InitInv()
    ensures Inv(INIT)
  {
  }

  ghost predicate Reachable(s: State) {
    exists schedule :: s == Exec(INIT, schedule)
  }

  lemma ReachableInv(s: State)
    requires Reachable(s)
    ensures Inv(s)
  {
    hide Inv;
    var schedule :| s == Exec(INIT, schedule);
    EveryRun(schedule);
  }

  // --------------------------------------------------------------------------- results

  /**
   * No assert of the back end fails, the front end always has a buffer, nextBuffer_ is
   * missing only while a filled buffer waits, and every round starts and ends with two
   * empty spare buffers.
   */
  lemma PoolNeverRunsDry(s: State)
    requires Reachable(s)
    ensures !s.fault && s.current.Owns?
    ensures s.next.Null? ==> s.buffers != []
    ensures s.next.Owns? ==> s.next == EMPTY
    ensures s.pc == Top ==> s.spare1 == EMPTY && s.spare2 == EMPTY && s.toWrite == []
    ensures s.pc == Trim ==> s.toWrite != []
  {
    hide WholeInv, FrontInv, BackInv;
    ReachableInv(s);
  }

  /** The arguments of append, read off the schedule. */
  function Appended(schedule: seq<Action>): seq<string>
    decreases |schedule|
  {
    if schedule == [] then []
    else
      var before, a := schedule[..|schedule| - 1], schedule[|schedule| - 1];
      if a.Append? then Appended(before) + [a.line] else Appended(before)
  }

  lemma BackHistory(s: State, stamp: string)
    ensures DoBack(s, stamp).lines == s.lines && DoBack(s, stamp).running == s.running
  {
    hide Notice;
  }

  /** The history the steps keep is that of the calls, and the back end goes on until it is stopped. */
  lemma {:induction false} HistoryIsTheCalls(schedule: seq<Action>)
    ensures Exec(INIT, schedule).lines == Appended(schedule)
    ensures Exec(INIT, schedule).running <==> Stop !in schedule
    decreases |schedule|
  {
    hide DoBack, AppendTo;
    if schedule != [] {
      var before, a := schedule[..|schedule| - 1], schedule[|schedule| - 1];
      HistoryIsTheCalls(before);
      assert schedule == before + [a];
      if a.Back? {
        BackHistory(Exec(INIT, before), a.stamp);
      }
    }
  }

  /** Every line appended that fits a buffer is, in order, in a swapped-out round, in buffers_ or in currentBuffer_. */
  lemma LinesAreConserved(schedule: seq<Action>)
    ensures var s := Exec(INIT, schedule);
            Kept(Appended(schedule)) == Taken(s.rounds) + LinesOf(s.buffers) + Lines(s.current)
  {
    hide Whole, Kept, Taken, LinesOf, BackInv, PoolInv, Exec, Appended;
    EveryRun(schedule);
    HistoryIsTheCalls(schedule);
  }

  /** A stopped back end finishes its round and then leaves the loop; until then it starts another. */
  lemma RunsUntilStopped(schedule: seq<Action>, stamp: string)
    requires Exec(INIT, schedule).pc == Top
    ensures Exec(INIT, schedule + [Back(stamp)]).pc == if Stop in schedule then Done else Swap
  {
    hide WholeInv, FrontInv, BackInv;
    EveryRun(schedule);
    HistoryIsTheCalls(schedule);
    assert (schedule + [Back(stamp)])[..|schedule|] == schedule;
  }

  /** What the log file still has to be given of the round in progress. */
  function Unwritten(s: State): seq<Pointer> {
    match s.pc
    case Trim => s.toWrite
    case Write(i) => if i <= |s.toWrite| then s.toWrite[i..] else []
    case _ => []
  }

  lemma {:induction false} WholeData(ps: seq<Pointer>)
    requires AllWhole(ps)
    ensures DataOf(ps) == Flatten(LinesOf(ps))
    decreases |ps|
  {
    hide Flatten;
    if ps == [] {
      assert Flatten<char>([]) == [] by {
        FlattenEmpty();
      }
    } else {
      var n := |ps| - 1;
      WholeData(ps[..n]);
      FlattenConcat(LinesOf(ps[..n]), Lines(ps[n]));
    }
  }

  lemma FlattenEmpty()
    ensures Flatten<char>([]) == []
  {
  }

  predicate WithinLimit(rounds: seq<Round>) {
    forall k :: 0 <= k < |rounds| ==> |rounds[k].buffers| <= 25
  }

  /** Without an oversized round the rounds' output is the text of the lines they took. */
  lemma {:induction false} OutputIsText(rounds: seq<Round>)
    requires WithinLimit(rounds) && forall k :: 0 <= k < |rounds| ==> AllWhole(rounds[k].buffers)
    ensures Output(rounds) == Flatten(Taken(rounds))
    decreases |rounds|
  {
    hide Flatten, AllWhole;
    if rounds == [] {
      FlattenEmpty();
    } else {
      var n := |rounds| - 1;
      OutputIsText(rounds[..n]);
      WholeData(rounds[n].buffers);
      FlattenConcat(Taken(rounds[..n]), LinesOf(rounds[n].buffers));
    }
  }

  lemma OutputAndUnwritten(s: State)
    requires Inv(s) && WithinLimit(s.rounds)
    ensures s.output + DataOf(Unwritten(s)) == Output(s.rounds)
  {
    hide Whole, DataOf, FrontInv, WholeInv;
    NoLines();
    assert s.output + "" == s.output;
    if s.pc == Trim {
      InTrim(s);
      LastRound(s);
    }
  }

  lemma LastRound(s: State)
    requires s.rounds != [] && WithinLimit(s.rounds)
    ensures Output(s.rounds) == Output(s.rounds[..|s.rounds| - 1]) + DataOf(s.rounds[|s.rounds| - 1].buffers)
  {
  }

  /**
   * As long as no swap sees more than 25 buffers, the text of all lines appended is what
   * has been written, then the unwritten rest of buffersToWrite, buffers_ and
   * currentBuffer_: nothing is lost, repeated or reordered.
   */
  lemma BytesAreConserved(schedule: seq<Action>)
    requires WithinLimit(Exec(INIT, schedule).rounds)
    ensures var s := Exec(INIT, schedule);
            Flatten(Kept(Appended(schedule))) ==
            s.output + DataOf(Unwritten(s)) + DataOf(s.buffers) + Data(s.current)
  {
    hide Flatten, Kept, Taken, LinesOf, DataOf, Output, Unwritten, PoolInv, BackInv, Exec, Appended;
    var s := Exec(INIT, schedule);
    EveryRun(schedule);
    HistoryIsTheCalls(schedule);
    OutputAndUnwritten(s);
    OutputIsText(s.rounds);
    WholeData(s.buffers);
    FlattenConcat(Taken(s.rounds), LinesOf(s.buffers));
    FlattenConcat(Taken(s.rounds) + LinesOf(s.buffers), Lines(s.current));
  }

  /** What a round writes is made of whole lines, with the notice in front if buffers were dropped. */
  lemma DropsWholeBuffers(s: State, k: nat)
    requires Reachable(s) && k < |s.rounds|
    ensures var r := s.rounds[k];
            if |r.buffers| > 25
            then Written(r) == Notice(r.stamp, |r.buffers| - 2) + Flatten(LinesOf(r.buffers[..2]))
            else Written(r) == Flatten(LinesOf(r.buffers))
  {
    hide Flatten, Kept, Taken, LinesOf, DataOf, Output, Reachable, PoolInv, BackInv, FrontInv, Notice;
    ReachableInv(s);
    var r := s.rounds[k];
    WholeData(r.buffers);
    if |r.buffers| > MAX_BUFFERS {
      WholeData(r.buffers[..2]);
    }
  }

  datatype NoticeFields = NoticeFields(stamp: string, dropped: Parsed)

  /** Reads a notice: its stamp up to the comma, then the number up to the blank. */
  function ReadNotice(text: string): NoticeFields {
    var stamp := SplitFirst(Drop(text, |"Dropped log messages at "|), ',');
    NoticeFields(stamp.head, ParseDecimal(SplitFirst(Drop(stamp.tail, 1), ' ').head))
  }

  /** The notice names the time and the number of buffers dropped, unless 255 characters do not suffice for it. */
  lemma NoticeReadsBack(stamp: string, dropped: nat)
    requires ',' !in stamp
    ensures |stamp| + |Decimal(dropped)| <= 213 ==>
              ReadNotice(Notice(stamp, dropped)) == NoticeFields(stamp, Number(dropped))
    ensures |Notice(stamp, dropped)| == if |stamp| + |Decimal(dropped)| <= 213
                                        then 42 + |stamp| + |Decimal(dropped)| else 255
  {
    hide Decimal, ParseDecimal, SplitFirst;
    var head, n, tail := "Dropped log messages at ", Decimal(dropped), "larger buffers\n";
    var text := head + stamp + ", " + n + " larger buffers\n";
    assert |text| == 42 + |stamp| + |n|;
    if |stamp| + |n| <= 213 {
      assert Drop(text, |head|) == stamp + [','] + (" " + n + [' '] + tail);
      SplitFirstAt(stamp, ',', " " + n + [' '] + tail);
      assert Drop(" " + n + [' '] + tail, 1) == n + [' '] + tail;
      DecimalHasNoBlank(dropped);
      SplitFirstAt(n, ' ', tail);
      DecimalRoundTrip(dropped);
    }
  }

  /** Between rounds the log file holds exactly what the rounds had to write. */
  lemma FileHoldsAllRounds(s: State)
    requires Reachable(s) && (s.pc == Top || s.pc == Swap || s.pc == Done)
    ensures s.output == Output(s.rounds)
  {
    hide Output, PoolInv, WholeInv, FrontInv;
    ReachableInv(s);
  }
}
