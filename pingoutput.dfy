/** The report parser of the ping tool: the loop in `pinger` that reads the
    captured standard output of `ping -q` and picks out the packet-summary
    line and the round-trip-time line. Both iterations of the tool carry the
    same loop, character for character (transonic2.py:60-76 and
    transonic.py:53-69); it is modelled once, here. */
module PingOutput {
  import opened PyText
  import opened PingRecord

  /** The Python exceptions a malformed line raises inside the loop. */
  datatype PyError = IndexError | ValueError

  /** A value, or the exception that aborted `pinger`. */
  datatype Result<+T> = Ok(value: T) | Err(error: PyError) {
    predicate IsFailure() { Err? }
    function PropagateFailure<U>(): Result<U> requires Err? { Err(error) }
    function Extract(): T requires Ok? { value }
  }

  /** The loop's two variables `pstat` and `rtts`; None until a line sets them. */
  datatype Report = Report(pstat: Option<PingStats>, rtts: Option<RttStats>)

  const SummaryMarker := "packets transmitted"
  const RttPrefix := "rtt min/avg/max/mdev"
  const ErrorsToken := "errors,"

  /** The summary line is recognised by a fixed offset: characters 2 to 20
      spell "packets transmitted". */
  predicate IsSummaryLine(line: string): (b: bool)
    ensures b <==> 2 + |SummaryMarker| <= |line| && line[2..2 + |SummaryMarker|] == SummaryMarker
  {
    Slice(line, 2, 2 + |SummaryMarker|) == SummaryMarker
  }

  /** An rtt line is never taken for a summary line (its third character is
      't', not 'p'), so the order of the two tests does not matter. */
  predicate IsRttLine(line: string): (b: bool)
    ensures b ==> |RttPrefix| <= |line| && !IsSummaryLine(line)
  {
    var found := StartsWith(line, RttPrefix);
    assert found ==> line[2] == RttPrefix[2] == 't';
    found
  }

  /** `stats[i]` when drop is 0, `stats[i][:-drop]` otherwise: the text
      `int` is applied to. */
  function Stripped(w: string, drop: nat): (t: string)
    ensures drop > 0 && |w| >= drop ==> t + w[|w| - drop..] == w
    ensures drop > 0 && |w| < drop ==> t == []
  {
    if drop == 0 then w else DropLast(w, drop)
  }

  /** Field i of a summary line exists and, stripped of its suffix, is a
      decimal number. */
  predicate Readable(stats: seq<string>, i: nat, drop: nat)
  {
    i < |stats| && ParseNat(Stripped(stats[i], drop)).Some?
  }

  /** `int(stats[i])` when drop is 0, `int(stats[i][:-drop])` otherwise:
      IndexError past the last field, ValueError on text that is not a
      decimal number. */
  function IntField(stats: seq<string>, i: nat, drop: nat): (r: Result<nat>)
    ensures i >= |stats| <==> r == Err(IndexError)
    ensures i < |stats| && !Readable(stats, i, drop) <==> r == Err(ValueError)
    ensures r.Ok? ==> i < |stats| && drop < |stats[i]| && AllDigits(stats[i][..|stats[i]| - drop])
  {
    if i >= |stats| then Err(IndexError)
    else
      match ParseNat(Stripped(stats[i], drop))
      case None => Err(ValueError)
      case Some(n) => Ok(n)
  }

  /** The exception reading field i raises when it is not readable. */
  function ReadError(stats: seq<string>, i: nat): PyError
  {
    if i < |stats| then ValueError else IndexError
  }

  /** The four numbers of a summary line, read in order from the fields at
      0, 3, lossAt and timeAt; the loss field loses its last character ("%")
      and the time field its last two ("ms"). The read succeeds exactly when
      all four fields are readable, and otherwise raises the exception of the
      first field, in that order, that is not. */
  function ReadStats(stats: seq<string>, lossAt: nat, timeAt: nat): (r: Result<PingStats>)
    requires 3 < lossAt < timeAt
    ensures r.Ok? <==> Readable(stats, 0, 0) && Readable(stats, 3, 0)
                       && Readable(stats, lossAt, 1) && Readable(stats, timeAt, 2)
    ensures r.Ok? ==> r.value == PingStats(Int(ParseNat(stats[0]).value), Int(ParseNat(stats[3]).value),
                                           Int(ParseNat(Stripped(stats[lossAt], 1)).value),
                                           Int(ParseNat(Stripped(stats[timeAt], 2)).value))
    ensures !Readable(stats, 0, 0) ==> r == Err(ReadError(stats, 0))
    ensures Readable(stats, 0, 0) && !Readable(stats, 3, 0) ==> r == Err(ReadError(stats, 3))
    ensures Readable(stats, 0, 0) && Readable(stats, 3, 0) && !Readable(stats, lossAt, 1)
            ==> r == Err(ReadError(stats, lossAt))
    ensures (Readable(stats, 0, 0) && Readable(stats, 3, 0) && Readable(stats, lossAt, 1)
             && !Readable(stats, timeAt, 2)) ==> r == Err(ReadError(stats, timeAt))
  {
    var tx :- IntField(stats, 0, 0);
    var rx :- IntField(stats, 3, 0);
    var loss :- IntField(stats, lossAt, 1);
    var time :- IntField(stats, timeAt, 2);
    Ok(PingStats(Int(tx), Int(rx), Int(loss), Int(time)))
  }

  /** Where a summary line keeps its loss field: two places further on when
      it has an "errors," field. */
  function LossAt(stats: seq<string>): nat
  {
    if ErrorsToken in stats then 7 else 5
  }

  /** Where a summary line keeps its time field. */
  function TimeAt(stats: seq<string>): nat
  {
    if ErrorsToken in stats then 11 else 9
  }

  /** The `pingstats` a summary line yields: with an "errors," field the
      loss and time fields sit two places further on. It is read exactly
      when the count fields 0 and 3 and the loss and time fields of its
      layout are readable; otherwise the first unreadable one decides the
      exception. */
  function SummaryStats(line: string): (r: Result<PingStats>)
    ensures r.Ok? ==> |Fields(line)| > (if ErrorsToken in Fields(line) then 11 else 9)
    ensures r.Ok? ==> Numeric(r.value)
    ensures r.Ok? <==> Readable(Fields(line), 0, 0) && Readable(Fields(line), 3, 0)
                       && Readable(Fields(line), LossAt(Fields(line)), 1)
                       && Readable(Fields(line), TimeAt(Fields(line)), 2)
    ensures !Readable(Fields(line), 0, 0) ==> r == Err(ReadError(Fields(line), 0))
    ensures Readable(Fields(line), 0, 0) && !Readable(Fields(line), 3, 0) ==> r == Err(ReadError(Fields(line), 3))
  {
    var stats := Fields(line);
    if ErrorsToken in stats then ReadStats(stats, 7, 11)
    else ReadStats(stats, 5, 9)
  }

  /** A summary line whose transmitted count is not a decimal number makes
      `pinger` fail with ValueError, whatever follows it. */
  lemma NonNumericCount(line: string)
    requires |Fields(line)| > 0 && !AllDigits(Fields(line)[0])
    ensures SummaryStats(line) == Err(ValueError)
  {
  }

  /** A summary line that stops after the received count makes `pinger`
      fail with IndexError when both counts are numbers. */
  lemma TruncatedSummary(line: string)
    requires 3 < |Fields(line)| <= 5
    requires Readable(Fields(line), 0, 0) && Readable(Fields(line), 3, 0)
    ensures SummaryStats(line) == Err(IndexError)
  {
  }

  /** The `rttstats` an rtt line yields: its fourth field split on "/" must
      give exactly four strings (unpacking raises ValueError otherwise). The
      source takes `line.split(None, 4)[3]`, which is the fourth field of the
      plain whitespace split whenever there are at least four. */
  function RttOf(line: string): (r: Result<RttStats>)
    ensures |Fields(line)| < 4 <==> r == Err(IndexError)
    ensures r.Ok? <==> |Fields(line)| >= 4 && Occurrences(Fields(line)[3], '/') == 3
    ensures r.Ok? ==> Join("/", [r.value.rmin, r.value.ravg, r.value.rmax, r.value.rmdev]) == Fields(line)[3]
  {
    var stats := Fields(line);
    if |stats| < 4 then Err(IndexError)
    else
      var parts := SplitOn(stats[3], '/');
      SplitCount(stats[3], '/');
      if |parts| != 4 then Err(ValueError)
      else
        JoinSplit(stats[3], '/');
        FourParts(parts);
        Ok(RttStats(parts[0], parts[1], parts[2], parts[3]))
  }

  lemma FourParts(parts: seq<string>)
    requires |parts| == 4
    ensures parts == [parts[0], parts[1], parts[2], parts[3]]
  {
  }

  /** How the loop reads one line: as the summary line (with the record it
      yields or the exception it raises), as the rtt line, or as neither.
      The summary test comes first, as in the source. */
  datatype LineKind =
    | SummaryLine(stats: Result<PingStats>)
    | RttLine(rtt: Result<RttStats>)
    | OtherLine

  function Classify(line: string): (k: LineKind)
    ensures k.SummaryLine? <==> IsSummaryLine(line)
    ensures k.RttLine? <==> !IsSummaryLine(line) && IsRttLine(line)
  {
    if IsSummaryLine(line) then SummaryLine(SummaryStats(line))
    else if IsRttLine(line) then RttLine(RttOf(line))
    else OtherLine
  }

  /** One turn of the loop: a summary line replaces `pstat`, an rtt line
      replaces `rtts`, any other line leaves both as they were. */
  function Step(rep: Report, kind: LineKind): (r: Result<Report>)
    ensures r.Ok? <==> !Fails(kind)
    ensures r.Err? ==> r.error == LineError(kind)
    ensures r.Ok? ==> (kind.SummaryLine? || r.value.pstat == rep.pstat)
                      && (kind.RttLine? || r.value.rtts == rep.rtts)
  {
    match kind
    case SummaryLine(s) => if s.Err? then Err(s.error) else Ok(rep.(pstat := Some(s.value)))
    case RttLine(t) => if t.Err? then Err(t.error) else Ok(rep.(rtts := Some(t.value)))
    case OtherLine => Ok(rep)
  }

  /** The loop run over the kinds of a list of lines, from nothing found. */
  function Run(kinds: seq<LineKind>): (r: Result<Report>)
    ensures r.Ok? <==> forall j :: 0 <= j < |kinds| ==> !Fails(kinds[j])
  {
    if kinds == [] then Ok(Report(None, None))
    else
      var init := kinds[..|kinds| - 1];
      assert forall j :: 0 <= j < |init| ==> init[j] == kinds[j];
      var rep :- Run(init);
      Step(rep, kinds[|kinds| - 1])
  }

  function KindsOf(lines: seq<string>): (kinds: seq<LineKind>)
    ensures |kinds| == |lines|
    ensures forall j :: 0 <= j < |lines| ==> kinds[j] == Classify(lines[j])
  {
    seq(|lines|, j requires 0 <= j < |lines| => Classify(lines[j]))
  }

  /** The loop run over a list of lines. An exception it ends with is the
      one some line raises. */
  function ParseLines(lines: seq<string>): (r: Result<Report>)
    ensures r.Err? ==> exists j :: 0 <= j < |lines| && Fails(Classify(lines[j]))
                                   && r.error == LineError(Classify(lines[j]))
  {
    var kinds := KindsOf(lines);
    if Run(kinds).Err? then
      RunFirstError(kinds);
      Run(kinds)
    else
      Run(kinds)
  }

  /** The parse of a list of lines succeeds exactly when no line raises, and
      otherwise fails with the exception of the first line that does. */
  lemma ParseLinesOutcome(lines: seq<string>)
    ensures ParseLines(lines).Ok? <==> forall j :: 0 <= j < |lines| ==> !Fails(Classify(lines[j]))
    ensures ParseLines(lines).Err? ==>
              exists j :: 0 <= j < |lines| && Fails(Classify(lines[j]))
                          && (forall k :: 0 <= k < j ==> !Fails(Classify(lines[k])))
                          && ParseLines(lines).error == LineError(Classify(lines[j]))
  {
    var kinds := KindsOf(lines);
    if Run(kinds).Err? {
      RunFirstError(kinds);
    }
  }

  /** The report parse: split the output on "\n" and run the loop, leaving it
      through the exception of the first line that raises one. */
  method ParseReport(output: string) returns (r: Result<Report>)
    ensures r == ParseLines(SplitOn(output, '\n'))
  {
    var lines := SplitOn(output, '\n');
    ghost var kinds := KindsOf(lines);
    var pstat: Option<PingStats> := None;
    var rtts: Option<RttStats> := None;
    var i := 0;
    while i < |lines|
      invariant 0 <= i <= |lines|
      invariant Run(kinds[..i]) == Ok(Report(pstat, rtts))
    {
      var line := lines[i];
      assert kinds[..i + 1][..i] == kinds[..i];
      assert kinds[i] == Classify(line);
      if IsSummaryLine(line) {
        var s := SummaryStats(line);
        assert kinds[i] == SummaryLine(s);
        if s.Err? {
          RunStopsAtError(kinds, i + 1);
          return Err(s.error);
        }
        pstat := Some(s.value);
      } else if IsRttLine(line) {
        var t := RttOf(line);
        assert kinds[i] == RttLine(t);
        if t.Err? {
          RunStopsAtError(kinds, i + 1);
          return Err(t.error);
        }
        rtts := Some(t.value);
      } else {
        assert kinds[i] == OtherLine;
      }
      i := i + 1;
    }
    assert kinds[..|lines|] == kinds;
    r := Ok(Report(pstat, rtts));
  }

  // ---------------------------------------------------------------------
  // What the loop promises

  /** A line on which the loop raises an exception. */
  predicate Fails(kind: LineKind)
  {
    match kind
    case SummaryLine(s) => s.Err?
    case RttLine(t) => t.Err?
    case OtherLine => false
  }

  /** The exception a failing line raises. */
  function LineError(kind: LineKind): PyError
    requires Fails(kind)
  {
    if kind.SummaryLine? then kind.stats.error else kind.rtt.error
  }

  /** Once a line has raised, the lines after it are never read. */
  lemma {:induction false} RunStopsAtError(kinds: seq<LineKind>, n: nat)
    requires n <= |kinds| && Run(kinds[..n]).Err?
    ensures Run(kinds) == Run(kinds[..n])
    decreases |kinds| - n
  {
    if n < |kinds| {
      var init := kinds[..|kinds| - 1];
      assert init[..n] == kinds[..n];
      RunStopsAtError(init, n);
    } else {
      assert kinds[..n] == kinds;
    }
  }

  /** A failed loop reports the exception of the first line that raises. */
  lemma {:induction false} RunFirstError(kinds: seq<LineKind>)
    requires Run(kinds).Err?
    ensures exists j :: 0 <= j < |kinds| && Fails(kinds[j])
                        && (forall k :: 0 <= k < j ==> !Fails(kinds[k]))
                        && Run(kinds).error == LineError(kinds[j])
  {
    var init := kinds[..|kinds| - 1];
    assert forall j :: 0 <= j < |init| ==> init[j] == kinds[j];
    if Run(init).Err? {
      RunFirstError(init);
      var j :| 0 <= j < |init| && Fails(init[j]) && (forall k :: 0 <= k < j ==> !Fails(init[k]))
               && Run(init).error == LineError(init[j]);
      assert Fails(kinds[j]);
    } else {
      var j := |kinds| - 1;
      assert Fails(kinds[j]) && (forall k :: 0 <= k < j ==> !Fails(kinds[k]));
    }
  }

  /** With no summary line, `pstat` stays unset; any summary line sets it. */
  lemma {:induction false} RunNoSummary(kinds: seq<LineKind>)
    requires Run(kinds).Ok?
    ensures Run(kinds).value.pstat.None? <==> forall j :: 0 <= j < |kinds| ==> !kinds[j].SummaryLine?
  {
    if kinds != [] {
      var init := kinds[..|kinds| - 1];
      assert forall j :: 0 <= j < |init| ==> init[j] == kinds[j];
      RunNoSummary(init);
      RunInit(kinds);
    }
  }

  /** Of several summary lines the last one wins. */
  lemma {:induction false} RunLastSummary(kinds: seq<LineKind>)
    requires Run(kinds).Ok? && Run(kinds).value.pstat.Some?
    ensures exists j :: 0 <= j < |kinds| && kinds[j] == SummaryLine(Ok(Run(kinds).value.pstat.value))
                        && forall k :: j < k < |kinds| ==> !kinds[k].SummaryLine?
  {
    var init := kinds[..|kinds| - 1];
    var last := kinds[|kinds| - 1];
    RunInit(kinds);
    if last.SummaryLine? {
      assert kinds[|kinds| - 1] == SummaryLine(Ok(Run(kinds).value.pstat.value));
    } else {
      assert forall j :: 0 <= j < |init| ==> init[j] == kinds[j];
      RunLastSummary(init);
    }
  }

  /** With no rtt line, `rtts` stays unset; any rtt line sets it. */
  lemma {:induction false} RunNoRtt(kinds: seq<LineKind>)
    requires Run(kinds).Ok?
    ensures Run(kinds).value.rtts.None? <==> forall j :: 0 <= j < |kinds| ==> !kinds[j].RttLine?
  {
    if kinds != [] {
      var init := kinds[..|kinds| - 1];
      assert forall j :: 0 <= j < |init| ==> init[j] == kinds[j];
      RunNoRtt(init);
      RunInit(kinds);
    }
  }

  /** Of several rtt lines the last one wins. */
  lemma {:induction false} RunLastRtt(kinds: seq<LineKind>)
    requires Run(kinds).Ok? && Run(kinds).value.rtts.Some?
    ensures exists j :: 0 <= j < |kinds| && kinds[j] == RttLine(Ok(Run(kinds).value.rtts.value))
                        && forall k :: j < k < |kinds| ==> !kinds[k].RttLine?
  {
    var init := kinds[..|kinds| - 1];
    var last := kinds[|kinds| - 1];
    RunInit(kinds);
    if last.RttLine? {
      assert kinds[|kinds| - 1] == RttLine(Ok(Run(kinds).value.rtts.value));
    } else {
      assert forall j :: 0 <= j < |init| ==> init[j] == kinds[j];
      RunLastRtt(init);
    }
  }

  /** One turn of the loop, seen from its end: a run that finishes went
      through every earlier line without an exception. */
  lemma RunInit(kinds: seq<LineKind>)
    requires kinds != [] && Run(kinds).Ok?
    ensures Run(kinds[..|kinds| - 1]).Ok?
    ensures Run(kinds) == Step(Run(kinds[..|kinds| - 1]).value, kinds[|kinds| - 1])
  {
  }

  /** A line that is neither a summary nor an rtt line, wherever it stands,
      changes nothing. */
  lemma {:induction false} RunSkipsOther(pre: seq<LineKind>, post: seq<LineKind>)
    ensures Run(pre + [OtherLine] + post) == Run(pre + post)
  {
    if post == [] {
      assert (pre + [OtherLine])[..|pre|] == pre;
      assert pre + [] == pre && pre + [OtherLine] + [] == pre + [OtherLine];
    } else {
      var post' := post[..|post| - 1];
      RunSkipsOther(pre, post');
      assert (pre + [OtherLine] + post)[..|pre + [OtherLine] + post| - 1] == pre + [OtherLine] + post';
      assert (pre + post)[..|pre + post| - 1] == pre + post';
    }
  }

  /** The parsed report holds what the last summary line and the last rtt
      line yielded; where there was no such line, that part stays unset. */
  lemma ParseLinesLastWins(lines: seq<string>)
    requires ParseLines(lines).Ok?
    ensures ParseLines(lines).value.pstat.None? <==> forall j :: 0 <= j < |lines| ==> !IsSummaryLine(lines[j])
    ensures ParseLines(lines).value.pstat.Some? ==>
              exists j :: 0 <= j < |lines| && IsSummaryLine(lines[j])
                          && SummaryStats(lines[j]) == Ok(ParseLines(lines).value.pstat.value)
                          && forall k :: j < k < |lines| ==> !IsSummaryLine(lines[k])
    ensures ParseLines(lines).value.rtts.None? <==> forall j :: 0 <= j < |lines| ==> !IsRttLine(lines[j])
    ensures ParseLines(lines).value.rtts.Some? ==>
              exists j :: 0 <= j < |lines| && IsRttLine(lines[j])
                          && RttOf(lines[j]) == Ok(ParseLines(lines).value.rtts.value)
                          && forall k :: j < k < |lines| ==> !IsRttLine(lines[k])
  {
    var kinds := KindsOf(lines);
    RunNoSummary(kinds);
    RunNoRtt(kinds);
    if Run(kinds).value.pstat.Some? {
      RunLastSummary(kinds);
    }
    if Run(kinds).value.rtts.Some? {
      RunLastRtt(kinds);
    }
    forall j | 0 <= j < |lines| && IsRttLine(lines[j]) ensures !IsSummaryLine(lines[j]) {
    }
  }

  predicate HasSummaryLine(lines: seq<string>)
  {
    exists j :: 0 <= j < |lines| && IsSummaryLine(lines[j])
  }

  predicate HasRttLine(lines: seq<string>)
  {
    exists j :: 0 <= j < |lines| && IsRttLine(lines[j])
  }

  /** The parse sets `pstat` exactly when there was a summary line, and
      then to four integers; it sets `rtts` exactly when there was an rtt
      line. */
  lemma ParseLinesFound(lines: seq<string>)
    requires ParseLines(lines).Ok?
    ensures ParseLines(lines).value.pstat.Some? <==> HasSummaryLine(lines)
    ensures ParseLines(lines).value.pstat.Some? ==> Numeric(ParseLines(lines).value.pstat.value)
    ensures ParseLines(lines).value.rtts.Some? <==> HasRttLine(lines)
  {
    ParseLinesLastWins(lines);
  }

  /** A line that is neither a summary nor an rtt line, wherever it stands,
      changes nothing. */
  lemma UnmatchedLineIgnored(pre: seq<string>, line: string, post: seq<string>)
    requires !IsSummaryLine(line) && !IsRttLine(line)
    ensures ParseLines(pre + [line] + post) == ParseLines(pre + post)
  {
    KindsOfConcat(pre + [line], post);
    KindsOfConcat(pre, [line]);
    KindsOfConcat(pre, post);
    assert KindsOf([line]) == [OtherLine];
    RunSkipsOther(KindsOf(pre), KindsOf(post));
  }

  lemma KindsOfConcat(a: seq<string>, b: seq<string>)
    ensures KindsOf(a + b) == KindsOf(a) + KindsOf(b)
  {
    var whole, parts := KindsOf(a + b), KindsOf(a) + KindsOf(b);
    forall j | 0 <= j < |whole| ensures whole[j] == parts[j] {
      if j < |a| {
        assert (a + b)[j] == a[j];
      } else {
        assert (a + b)[j] == b[j - |a|];
      }
    }
  }

  // ---------------------------------------------------------------------
  // Reading back what ping prints

  /** The fields of the summary line ping prints when nothing went wrong:
      "<tx> packets transmitted, <rx> received, <loss>% packet loss, time <t>ms". */
  function PlainSummaryWords(tx: nat, rx: nat, loss: nat, time: nat): seq<string>
  {
    [NatToString(tx), "packets", "transmitted,", NatToString(rx), "received,",
     NatToString(loss) + "%", "packet", "loss,", "time", NatToString(time) + "ms"]
  }

  /** The same line with an error count: "..., <rx> received, +<e> errors, <loss>% ...". */
  function ErrorSummaryWords(tx: nat, rx: nat, errors: nat, loss: nat, time: nat): seq<string>
  {
    [NatToString(tx), "packets", "transmitted,", NatToString(rx), "received,",
     "+" + NatToString(errors), "errors,",
     NatToString(loss) + "%", "packet", "loss,", "time", NatToString(time) + "ms"]
  }

  /** "rtt min/avg/max/mdev = <min>/<avg>/<max>/<mdev> ms" */
  function RttWords(rmin: string, ravg: string, rmax: string, rmdev: string): seq<string>
  {
    ["rtt", "min/avg/max/mdev", "=", RttText(RttStats(rmin, ravg, rmax, rmdev)), "ms"]
  }

  lemma NatWord(n: nat)
    ensures IsWord(NatToString(n)) && NatToString(n) != ErrorsToken
  {
    var s := NatToString(n);
    assert IsDigit(s[0]);
  }

  lemma SuffixedNatWord(n: nat, suffix: string)
    requires IsWord(suffix)
    ensures IsWord(NatToString(n) + suffix)
    ensures NatToString(n) + suffix != ErrorsToken
    ensures DropLast(NatToString(n) + suffix, |suffix|) == NatToString(n)
  {
    var s := NatToString(n) + suffix;
    assert s[0] == NatToString(n)[0];
    assert IsDigit(s[0]);
    assert s[..|s| - |suffix|] == NatToString(n);
  }

  lemma Infix(p: string, m: string, q: string)
    ensures (p + m + q)[|p|..|p| + |m|] == m
  {
  }

  /** A summary line read at the fixed offset: it is recognised exactly when
      the transmitted count is one character long. */
  lemma SummaryOffset(words: seq<string>)
    requires |words| >= 3 && |words[0]| > 0 && AllDigits(words[0])
    requires words[1] == "packets" && words[2] == "transmitted,"
    ensures IsSummaryLine(Join(" ", words)) <==> |words[0]| == 1
  {
    var tail := if |words| == 3 then "" else " " + Join(" ", words[3..]);
    SummaryLineShape(words, tail);
    if |words[0]| == 1 {
      SummaryMarkerAtTwo(words[0], tail);
    } else {
      SummaryMarkerMissed(words[0], tail);
    }
  }

  /** A line of three or more words written out: the first three, then
      the rest. */
  lemma SummaryLineShape(words: seq<string>, tail: string)
    requires |words| >= 3
    requires tail == if |words| == 3 then "" else " " + Join(" ", words[3..])
    ensures Join(" ", words) == words[0] + " " + (words[1] + " " + Join(" ", words[2..]))
    ensures Join(" ", words[2..]) == words[2] + tail
  {
    assert words == [words[0]] + words[1..];
    JoinCons(" ", words[0], words[1..]);
    assert words[1..] == [words[1]] + words[2..];
    JoinCons(" ", words[1], words[2..]);
    if |words| == 3 {
      assert words[2..] == [words[2]];
      assert words[2] + tail == words[2];
    } else {
      assert words[2..] == [words[2]] + words[3..];
      JoinCons(" ", words[2], words[3..]);
      ConcatAssoc(words[2], " ", Join(" ", words[3..]));
    }
  }

  lemma SummaryMarkerAtTwo(count: string, tail: string)
    requires |count| == 1
    ensures IsSummaryLine(count + " " + ("packets" + " " + ("transmitted," + tail)))
  {
    var line := count + " " + ("packets" + " " + ("transmitted," + tail));
    assert line == (count + " ") + SummaryMarker + ("," + tail);
    Infix(count + " ", SummaryMarker, "," + tail);
  }

  lemma SummaryMarkerMissed(count: string, tail: string)
    requires |count| > 1 && AllDigits(count)
    ensures !IsSummaryLine(count + " " + ("packets" + " " + ("transmitted," + tail)))
  {
    var line := count + " " + ("packets" + " " + ("transmitted," + tail));
    assert line[2] == ' ' || IsDigit(line[2]);
    if 21 <= |line| {
      assert Slice(line, 2, 21) == line[2..21];
      assert line[2..21][0] == line[2];
    }
  }

  /** Fields holding the four numbers as ping prints them, at the positions
      a layout dictates, read back to those numbers. */
  lemma ReadStatsOfNumbers(stats: seq<string>, lossAt: nat, timeAt: nat, tx: nat, rx: nat, loss: nat, time: nat)
    requires 3 < lossAt < timeAt < |stats|
    requires stats[0] == NatToString(tx) && stats[3] == NatToString(rx)
    requires stats[lossAt] == NatToString(loss) + "%"
    requires stats[timeAt] == NatToString(time) + "ms"
    ensures ReadStats(stats, lossAt, timeAt) == Ok(PingStats(Int(tx), Int(rx), Int(loss), Int(time)))
  {
    IntFieldOfNumber(stats, 0, tx);
    IntFieldOfNumber(stats, 3, rx);
    IntFieldOfSuffixed(stats, lossAt, loss, "%");
    IntFieldOfSuffixed(stats, timeAt, time, "ms");
    ReadStatsOk(stats, lossAt, timeAt, tx, rx, loss, time);
  }

  lemma ReadStatsOk(stats: seq<string>, lossAt: nat, timeAt: nat, tx: nat, rx: nat, loss: nat, time: nat)
    requires 3 < lossAt < timeAt
    requires IntField(stats, 0, 0) == Ok(tx) && IntField(stats, 3, 0) == Ok(rx)
    requires IntField(stats, lossAt, 1) == Ok(loss) && IntField(stats, timeAt, 2) == Ok(time)
    ensures ReadStats(stats, lossAt, timeAt) == Ok(PingStats(Int(tx), Int(rx), Int(loss), Int(time)))
  {
  }

  lemma IntFieldOfNumber(stats: seq<string>, i: nat, n: nat)
    requires i < |stats| && stats[i] == NatToString(n)
    ensures IntField(stats, i, 0) == Ok(n)
  {
    ParseNatToString(n);
  }

  lemma IntFieldOfSuffixed(stats: seq<string>, i: nat, n: nat, suffix: string)
    requires IsWord(suffix)
    requires i < |stats| && stats[i] == NatToString(n) + suffix
    ensures IntField(stats, i, |suffix|) == Ok(n)
  {
    ParseNatToString(n);
    SuffixedNatWord(n, suffix);
  }

  lemma SummaryLiteralsAreWords()
    ensures IsWord("packets") && IsWord("transmitted,") && IsWord("received,")
    ensures IsWord("packet") && IsWord("loss,") && IsWord("time") && IsWord(ErrorsToken)
    ensures IsWord("%") && IsWord("ms")
  {
    CountLiteralsAreWords();
    LossLiteralsAreWords();
  }

  lemma CountLiteralsAreWords()
    ensures IsWord("packets") && IsWord("transmitted,") && IsWord("received,")
  {
  }

  lemma LossLiteralsAreWords()
    ensures IsWord("packet") && IsWord("loss,") && IsWord("time") && IsWord(ErrorsToken)
  {
  }

  /** Parsing the summary line ping prints gives back its four numbers
      (when the transmitted count is a single digit; otherwise the line is
      not recognised at all). */
  lemma PlainSummaryRoundTrip(tx: nat, rx: nat, loss: nat, time: nat)
    ensures IsSummaryLine(Join(" ", PlainSummaryWords(tx, rx, loss, time))) <==> tx < 10
    ensures SummaryStats(Join(" ", PlainSummaryWords(tx, rx, loss, time)))
            == Ok(PingStats(Int(tx), Int(rx), Int(loss), Int(time)))
  {
    var ws := PlainSummaryWords(tx, rx, loss, time);
    PlainSummaryWordsAreWords(tx, rx, loss, time);
    FieldsUnwords(ws);
    SummaryOffset(ws);
    ReadStatsOfNumbers(ws, 5, 9, tx, rx, loss, time);
  }

  lemma PlainSummaryWordsAreWords(tx: nat, rx: nat, loss: nat, time: nat)
    ensures forall k :: 0 <= k < |PlainSummaryWords(tx, rx, loss, time)| ==> IsWord(PlainSummaryWords(tx, rx, loss, time)[k])
    ensures ErrorsToken !in PlainSummaryWords(tx, rx, loss, time)
  {
    SummaryLiteralsAreWords();
    NatWord(tx);
    NatWord(rx);
    SuffixedNatWord(loss, "%");
    SuffixedNatWord(time, "ms");
  }

  /** The error-count layout reads to the same record as the plain layout
      for the same numbers: the parser skips the two extra fields. */
  lemma ErrorSummaryRoundTrip(tx: nat, rx: nat, errors: nat, loss: nat, time: nat)
    ensures IsSummaryLine(Join(" ", ErrorSummaryWords(tx, rx, errors, loss, time))) <==> tx < 10
    ensures SummaryStats(Join(" ", ErrorSummaryWords(tx, rx, errors, loss, time)))
            == SummaryStats(Join(" ", PlainSummaryWords(tx, rx, loss, time)))
            == Ok(PingStats(Int(tx), Int(rx), Int(loss), Int(time)))
  {
    var ws := ErrorSummaryWords(tx, rx, errors, loss, time);
    SummaryLiteralsAreWords();
    NatWord(tx);
    NatWord(rx);
    SignedNatWord(errors);
    SuffixedNatWord(loss, "%");
    SuffixedNatWord(time, "ms");
    FieldsUnwords(ws);
    SummaryOffset(ws);
    assert ws[6] == ErrorsToken;
    ReadStatsOfNumbers(ws, 7, 11, tx, rx, loss, time);
    PlainSummaryRoundTrip(tx, rx, loss, time);
  }

  lemma SignedNatWord(n: nat)
    ensures IsWord("+" + NatToString(n))
  {
    var e := "+" + NatToString(n);
    assert forall k :: 1 <= k < |e| ==> e[k] == NatToString(n)[k - 1];
  }

  lemma RttWordsAreWords(rmin: string, ravg: string, rmax: string, rmdev: string)
    requires IsFigure(rmin) && IsFigure(ravg) && IsFigure(rmax) && IsFigure(rmdev)
    ensures forall k :: 0 <= k < 5 ==> IsWord(RttWords(rmin, ravg, rmax, rmdev)[k])
  {
    RttTextSplits(RttStats(rmin, ravg, rmax, rmdev));
    assert IsWord("rtt") && IsWord("min/avg/max/mdev") && IsWord("=") && IsWord("ms");
  }

  lemma RttPrefixWords()
    ensures "rtt" + " " + "min/avg/max/mdev" == RttPrefix
  {
    assert "rtt" + " " == "rtt ";
  }

  lemma RttWordsStart(ws: seq<string>)
    requires |ws| > 2 && ws[0] == "rtt" && ws[1] == "min/avg/max/mdev"
    ensures IsRttLine(Join(" ", ws))
  {
    var rest := " " + Join(" ", ws[2..]);
    JoinTwo(" ", ws);
    RttPrefixWords();
    ConcatCongruence(ws[0] + " " + ws[1], RttPrefix, rest);
    StartsWithPrefix(RttPrefix, rest);
  }

  /** Parsing the rtt line ping prints gives back its four figures as text. */
  lemma RttRoundTrip(rmin: string, ravg: string, rmax: string, rmdev: string)
    requires IsFigure(rmin) && IsFigure(ravg) && IsFigure(rmax) && IsFigure(rmdev)
    ensures IsRttLine(Join(" ", RttWords(rmin, ravg, rmax, rmdev)))
    ensures RttOf(Join(" ", RttWords(rmin, ravg, rmax, rmdev))) == Ok(RttStats(rmin, ravg, rmax, rmdev))
  {
    RttWordsStart(RttWords(rmin, ravg, rmax, rmdev));
    RttOfWords(rmin, ravg, rmax, rmdev);
  }

  lemma RttOfWords(rmin: string, ravg: string, rmax: string, rmdev: string)
    requires IsFigure(rmin) && IsFigure(ravg) && IsFigure(rmax) && IsFigure(rmdev)
    ensures RttOf(Join(" ", RttWords(rmin, ravg, rmax, rmdev))) == Ok(RttStats(rmin, ravg, rmax, rmdev))
  {
    var ws := RttWords(rmin, ravg, rmax, rmdev);
    RttTextSplits(RttStats(rmin, ravg, rmax, rmdev));
    RttWordsAreWords(rmin, ravg, rmax, rmdev);
    FieldsUnwords(ws);
  }

  /** No line break inside a line built from words. */
  lemma WordsOnOneLine(ws: seq<string>)
    requires forall k :: 0 <= k < |ws| ==> IsWord(ws[k])
    ensures '\n' !in Join(" ", ws)
  {
    assert IsSpace('\n');
    assert forall k :: 0 <= k < |ws| ==> '\n' !in ws[k];
    JoinAvoids(" ", ws, '\n');
  }

  /** Lines that are neither summary nor rtt lines leave the loop where it
      started. */
  lemma {:induction false} RunOthers(kinds: seq<LineKind>)
    requires forall k :: 0 <= k < |kinds| ==> kinds[k] == OtherLine
    ensures Run(kinds) == Ok(Report(None, None))
  {
    if kinds != [] {
      RunOthers(kinds[..|kinds| - 1]);
    }
  }

  /** Lines that are neither summary nor rtt lines, then a summary line
      and an rtt line, run to what those last two yielded. */
  lemma RunAfterOthers(others: seq<LineKind>, stats: PingStats, t: RttStats)
    requires forall k :: 0 <= k < |others| ==> others[k] == OtherLine
    ensures Run(others + [SummaryLine(Ok(stats)), RttLine(Ok(t))]) == Ok(Report(Some(stats), Some(t)))
  {
    var ks := others + [SummaryLine(Ok(stats)), RttLine(Ok(t))];
    var init := ks[..|ks| - 1];
    assert init == others + [SummaryLine(Ok(stats))];
    assert init[..|init| - 1] == others;
    RunOthers(others);
  }

  lemma KindsOfAppend(header: seq<string>, a: string, b: string)
    ensures KindsOf(header + [a, b]) == KindsOf(header) + [Classify(a), Classify(b)]
  {
  }

  /** Header lines followed by a summary line and an rtt line run to the
      record and figures of those two lines. */
  lemma RunHeaderSummaryRtt(header: seq<string>, summary: string, stats: PingStats, rtt: string, t: RttStats)
    requires forall k :: 0 <= k < |header| ==> !IsSummaryLine(header[k]) && !IsRttLine(header[k])
    requires IsSummaryLine(summary) && SummaryStats(summary) == Ok(stats)
    requires IsRttLine(rtt) && RttOf(rtt) == Ok(t)
    ensures ParseLines(header + [summary, rtt]) == Ok(Report(Some(stats), Some(t)))
  {
    KindsOfAppend(header, summary, rtt);
    RunAfterOthers(KindsOf(header), stats, t);
  }

  /** Lines without a line break, joined by "\n", split back into themselves. */
  lemma OutputLines(header: seq<string>, summary: string, rtt: string)
    requires forall k :: 0 <= k < |header| ==> '\n' !in header[k]
    requires '\n' !in summary && '\n' !in rtt
    ensures SplitOn(Join("\n", header + [summary, rtt]), '\n') == header + [summary, rtt]
  {
    var lines := header + [summary, rtt];
    LinesAvoid(header, summary, rtt);
    SplitJoin(lines, '\n');
  }

  lemma LinesAvoid(header: seq<string>, summary: string, rtt: string)
    requires forall k :: 0 <= k < |header| ==> '\n' !in header[k]
    requires '\n' !in summary && '\n' !in rtt
    ensures forall k :: 0 <= k < |header + [summary, rtt]| ==> '\n' !in (header + [summary, rtt])[k]
  {
    var lines := header + [summary, rtt];
    forall k | 0 <= k < |lines| ensures '\n' !in lines[k] {
      if k < |header| {
        assert lines[k] == header[k];
      }
    }
  }

  /** The whole report of a host that answered: whatever header lines come
      first, a summary line and an rtt line read back to the numbers and
      figures ping printed. */
  lemma OutputRoundTrip(header: seq<string>, tx: nat, rx: nat, loss: nat, time: nat, t: RttStats)
    requires forall k :: 0 <= k < |header| ==> !IsSummaryLine(header[k]) && !IsRttLine(header[k]) && '\n' !in header[k]
    requires tx < 10
    requires IsFigure(t.rmin) && IsFigure(t.ravg) && IsFigure(t.rmax) && IsFigure(t.rmdev)
    ensures ParseLines(SplitOn(Join("\n", header + [Join(" ", PlainSummaryWords(tx, rx, loss, time)),
                                                      Join(" ", RttWords(t.rmin, t.ravg, t.rmax, t.rmdev))]), '\n'))
            == Ok(Report(Some(PingStats(Int(tx), Int(rx), Int(loss), Int(time))), Some(t)))
  {
    var summary := Join(" ", PlainSummaryWords(tx, rx, loss, time));
    var rtt := Join(" ", RttWords(t.rmin, t.ravg, t.rmax, t.rmdev));
    PlainSummaryRoundTrip(tx, rx, loss, time);
    RttRoundTrip(t.rmin, t.ravg, t.rmax, t.rmdev);
    PlainSummaryOnOneLine(tx, rx, loss, time);
    RttWordsAreWords(t.rmin, t.ravg, t.rmax, t.rmdev);
    WordsOnOneLine(RttWords(t.rmin, t.ravg, t.rmax, t.rmdev));
    OutputLines(header, summary, rtt);
    RunHeaderSummaryRtt(header, summary, PingStats(Int(tx), Int(rx), Int(loss), Int(time)), rtt, t);
  }

  lemma PlainSummaryOnOneLine(tx: nat, rx: nat, loss: nat, time: nat)
    ensures '\n' !in Join(" ", PlainSummaryWords(tx, rx, loss, time))
  {
    SummaryLiteralsAreWords();
    NatWord(tx);
    NatWord(rx);
    SuffixedNatWord(loss, "%");
    SuffixedNatWord(time, "ms");
    WordsOnOneLine(PlainSummaryWords(tx, rx, loss, time));
  }

  // ---------------------------------------------------------------------
  // Concrete reports

  /** A line shorter than 21 characters cannot hold the marker at offset 2. */
  lemma ShortLineNotSummary(line: string)
    requires |line| < 2 + |SummaryMarker|
    ensures !IsSummaryLine(line)
  {
  }

  /** The line "5 packets transmitted, 0 received, +5 errors, 100% packet loss,
      time 4003ms" (its words written with single spaces between them) reads,
      in the error-count layout, to (5, 0, 100, 4003). */
  lemma ErrorLayoutExample()
    ensures SummaryStats(Join(" ", ["5", "packets", "transmitted,", "0", "received,", "+5", "errors,",
                                    "100%", "packet", "loss,", "time", "4003ms"]))
            == Ok(PingStats(Int(5), Int(0), Int(100), Int(4003)))
  {
    ErrorSummaryRoundTrip(5, 0, 5, 100, 4003);
    ExampleErrorWords();
  }

  lemma ExampleErrorWords()
    ensures ErrorSummaryWords(5, 0, 5, 100, 4003)
            == ["5", "packets", "transmitted,", "0", "received,", "+5", "errors,",
                "100%", "packet", "loss,", "time", "4003ms"]
  {
    ExampleNumbers();
    assert "+" + NatToString(5) == "+5";
    assert NatToString(100) + "%" == "100%";
    assert NatToString(4003) + "ms" == "4003ms";
  }

  lemma ExampleNumbers()
    ensures NatToString(5) == "5" && NatToString(0) == "0"
    ensures NatToString(100) == "100" && NatToString(4003) == "4003"
  {
    assert NatToString(10) == "10";
    assert NatToString(40) == "40";
    assert NatToString(400) == "400";
  }
}
