/** The second iteration of the ping tool (transonic2.py): the result record
    `Pingresult` and its one-line rendering, `pinger` as the report parse of
    one host's ping output, `pool.map(pinger, targets)` as an ordered map
    over the hosts, and `formatresults` with its three output styles. */
module Transonic2 {
  import opened PyText
  import opened PingRecord
  import opened PingOutput

  /** Terminal escapes wrapped around the name of a host that is down. They
      are kept as literal strings; nothing depends on what they mean. */
  const REVERSE := "\U{1B}[7m"
  const NORMAL := "\U{1B}[m\U{1B}(B"

  /** `Pingresult`: the host name, its packet counts and its round-trip
      figures. */
  datatype PingResult = PingResult(hostname: string, pstats: PingStats, rtt: RttStats)

  /** `Pingresult(hostname="UNKNOWN", pstats=None, rtt=None)`: a part that
      was not supplied is the record of four "?". */
  function NewPingResult(hostname: string := "UNKNOWN", pstats: Option<PingStats> := None,
                         rtt: Option<RttStats> := None): (r: PingResult)
    ensures r.hostname == hostname
    ensures pstats.Some? ==> r.pstats == pstats.value
    ensures pstats.None? ==> r.pstats == UnknownStats && WellFormed(r.pstats)
    ensures rtt.Some? ==> r.rtt == rtt.value
    ensures rtt.None? ==> r.rtt == UnknownRtt
  {
    PingResult(hostname,
               if pstats.Some? then pstats.value else UnknownStats,
               if rtt.Some? then rtt.value else UnknownRtt)
  }

  /** `Pingresult.__str__`: the host name first, then the counts, then the
      figures. */
  function Str(r: PingResult): (s: string)
    ensures StartsWith(s, r.hostname + " S" + FieldText(r.pstats.txcount) + "/R")
    ensures EndsWith(s, ", maMD: " + RttText(r.rtt))
  {
    RenderLine(r.hostname, r.pstats, r.rtt)
  }

  /** The rendering of a record built without stats or figures shows "?" in
      every place. */
  lemma UnknownStr(hostname: string)
    ensures Str(NewPingResult(hostname)) == hostname + " S?/R?, maMD: ?/?/?/?"
  {
    UnknownRttText();
    Regroup(hostname, " S", "?", "/R", "?", ", maMD: ", "?/?/?/?");
    UnknownTail();
  }

  lemma UnknownRttText()
    ensures RttText(UnknownRtt) == "?/?/?/?"
  {
    JoinCons("/", "?", ["?", "?", "?"]);
    JoinCons("/", "?", ["?", "?"]);
    JoinCons("/", "?", ["?"]);
  }

  lemma UnknownTail()
    ensures " S" + "?" + "/R" + "?" + ", maMD: " + "?/?/?/?" == " S?/R?, maMD: ?/?/?/?"
  {
  }

  lemma Regroup(h: string, a: string, b: string, c: string, d: string, e: string, f: string)
    ensures h + a + b + c + d + e + f == h + (a + b + c + d + e + f)
  {
  }

  /** The rendering reads back: its second field carries the counts as
      "S<tx>/R<rx>," and its fourth field splits on "/" into the figures. */
  lemma StrReadsBack(r: PingResult)
    requires IsWord(r.hostname)
    requires IsFigure(r.rtt.rmin) && IsFigure(r.rtt.ravg) && IsFigure(r.rtt.rmax) && IsFigure(r.rtt.rmdev)
    ensures |Fields(Str(r))| == 4 && Fields(Str(r))[0] == r.hostname
    ensures Fields(Str(r))[1] == "S" + FieldText(r.pstats.txcount) + "/R" + FieldText(r.pstats.rxcount) + ","
    ensures Fields(Str(r))[2] == "maMD:"
    ensures SplitOn(Fields(Str(r))[3], '/') == [r.rtt.rmin, r.rtt.ravg, r.rtt.rmax, r.rtt.rmdev]
  {
    RenderLineFields(r.hostname, r.pstats, r.rtt);
  }

  // ---------------------------------------------------------------------
  // Up or down

  /** `a > b` between two fields of the same kind; "?" > "?" is false. */
  predicate Greater(a: Field, b: Field)
  {
    a.Int? && b.Int? && a.n > b.n
  }

  /** The test `formatresults` applies: a host is down when fewer replies
      came back than requests went out, or none at all. Both fields are
      integers or both are "?" (a mix would make Python raise TypeError). */
  predicate IsDown(r: PingResult): (b: bool)
    requires WellFormed(r.pstats)
    ensures r.pstats.txcount.Int? ==>
              (!b <==> r.pstats.rxcount.n >= r.pstats.txcount.n && r.pstats.rxcount.n > 0)
    ensures r.pstats == UnknownStats ==> !b
  {
    Greater(r.pstats.txcount, r.pstats.rxcount) || r.pstats.rxcount == Int(0)
  }

  predicate AllWellFormed(results: seq<PingResult>)
  {
    forall k :: 0 <= k < |results| ==> WellFormed(results[k].pstats)
  }

  /** Number of hosts that are down. */
  function CountDown(results: seq<PingResult>): (n: nat)
    requires AllWellFormed(results)
    ensures n <= |results|
  {
    if results == [] then 0
    else
      var last := results[|results| - 1];
      CountDown(results[..|results| - 1]) + (if IsDown(last) then 1 else 0)
  }

  /** Number of hosts that are up. */
  function CountUp(results: seq<PingResult>): (n: nat)
    requires AllWellFormed(results)
    ensures n + CountDown(results) == |results|
  {
    if results == [] then 0
    else
      var last := results[|results| - 1];
      CountUp(results[..|results| - 1]) + (if IsDown(last) then 0 else 1)
  }

  /** The count of down hosts is the number of positions holding one. */
  lemma {:induction false} CountDownIsDownHosts(results: seq<PingResult>)
    requires AllWellFormed(results)
    ensures CountDown(results) == |set k | 0 <= k < |results| && IsDown(results[k])|
  {
    if results != [] {
      var n := |results| - 1;
      var init := results[..n];
      CountDownIsDownHosts(init);
      var before := set k | 0 <= k < n && IsDown(init[k]);
      var after := set k | 0 <= k < |results| && IsDown(results[k]);
      if IsDown(results[n]) {
        assert after == before + {n};
      } else {
        assert after == before;
      }
    }
  }

  // ---------------------------------------------------------------------
  // formatresults

  /** The tally that closes the cell and ccell styles, on its own line
      after the entries: `"%i up, %i down" % (up, down)`. */
  function TallyLine(up: nat, down: nat): (s: string)
    ensures Fields(s) == [NatToString(up), "up,", NatToString(down), "down"]
    ensures ParseNat(Fields(s)[0]) == Some(up) && ParseNat(Fields(s)[2]) == Some(down)
  {
    TallyWords(up, down);
    FieldsUnwords([NatToString(up), "up,", NatToString(down), "down"]);
    TallyJoin(NatToString(up), NatToString(down));
    ParseNatToString(up);
    ParseNatToString(down);
    NatToString(up) + " up, " + NatToString(down) + " down"
  }

  /** The `list` style: one rendering per host, in order, one per line.
      Renderings without a line break split back out of it, one line per
      host; with no hosts at all the text is empty, which `split` still
      reads as one (empty) line. */
  function ListText(results: seq<PingResult>): (s: string)
    ensures |results| > 0 && (forall k :: 0 <= k < |results| ==> '\n' !in Str(results[k])) ==>
              SplitOn(s, '\n') == seq(|results|, k requires 0 <= k < |results| => Str(results[k]))
  {
    var lines := seq(|results|, k requires 0 <= k < |results| => Str(results[k]));
    if |results| > 0 && (forall k :: 0 <= k < |results| ==> '\n' !in lines[k]) then
      SplitJoin(lines, '\n');
      Join("\n", lines)
    else
      Join("\n", lines)
  }

  /** The `cell` entry of one host: its name, in reverse video when down. */
  function CellWord(r: PingResult): (w: string)
    requires WellFormed(r.pstats)
    ensures IsDown(r) ==> |w| == |REVERSE| + |r.hostname| + |NORMAL|
    ensures IsDown(r) ==> StartsWith(w, REVERSE) && EndsWith(w, NORMAL)
                          && w[|REVERSE|..|w| - |NORMAL|] == r.hostname
    ensures !IsDown(r) ==> w == r.hostname
  {
    if IsDown(r) then REVERSE + r.hostname + NORMAL else r.hostname
  }

  function CellWords(results: seq<PingResult>): (ws: seq<string>)
    requires AllWellFormed(results)
    ensures |ws| == |results|
    ensures forall k :: 0 <= k < |results| ==> ws[k] == CellWord(results[k])
  {
    seq(|results|, k requires 0 <= k < |results| => CellWord(results[k]))
  }

  /** The `ccell` entry of one host: "!" when down, "." when up. */
  function CcellWord(r: PingResult): (w: string)
    requires WellFormed(r.pstats)
    ensures |w| == 1
    ensures w[0] == '!' <==> IsDown(r)
    ensures w[0] == '.' <==> !IsDown(r)
  {
    if IsDown(r) then "!" else "."
  }

  function CcellWords(results: seq<PingResult>): (ws: seq<string>)
    requires AllWellFormed(results)
    ensures |ws| == |results|
    ensures forall k :: 0 <= k < |results| ==> ws[k] == CcellWord(results[k])
  {
    seq(|results|, k requires 0 <= k < |results| => CcellWord(results[k]))
  }

  /** `formatresults(results, style)`: the `list` branch is one expression;
      the `cell` and `ccell` branches walk the results, bumping
      `counts[0]` (up) or `counts[1]` (down) and appending each host's
      entry. A style that matches no branch falls off the end: None. The
      comparisons are only made in the cell and ccell branches, so only
      those need records whose fields can be compared. */
  method FormatResults(results: seq<PingResult>, style: string) returns (out: Option<string>)
    requires style == "cell" || style == "ccell" ==> AllWellFormed(results)
    ensures style == "list" ==> out == Some(ListText(results))
    ensures style == "cell" ==>
              out == Some(Join(" ", CellWords(results)) + "\n" + TallyLine(CountUp(results), CountDown(results)))
    ensures style == "ccell" ==>
              out == Some(Join("", CcellWords(results)) + "\n" + TallyLine(CountUp(results), CountDown(results)))
    ensures style != "list" && style != "cell" && style != "ccell" ==> out == None
  {
    var counts := new nat[2](_ => 0);
    if style == "list" {
      return Some(ListText(results));
    } else if style == "cell" {
      var res := CellLoop(results, counts);
      return Some(Join(" ", res) + "\n" + TallyLine(counts[0], counts[1]));
    } else if style == "ccell" {
      var res := CcellLoop(results, counts);
      return Some(Join("", res) + "\n" + TallyLine(counts[0], counts[1]));
    }
    return None;
  }

  /** The loop of the `cell` branch: each host bumps its counter and adds
      its name, in reverse video when it is down. */
  method CellLoop(results: seq<PingResult>, counts: array<nat>) returns (res: seq<string>)
    requires AllWellFormed(results)
    requires counts.Length == 2 && counts[0] == 0 && counts[1] == 0
    modifies counts
    ensures res == CellWords(results)
    ensures counts[0] == CountUp(results) && counts[1] == CountDown(results)
  {
    res := [];
    var i := 0;
    while i < |results|
      invariant 0 <= i <= |results|
      invariant counts[0] == CountUp(results[..i]) && counts[1] == CountDown(results[..i])
      invariant res == CellWords(results[..i])
    {
      var r := results[i];
      CountStep(results, i);
      CellWordsStep(results, i);
      if Greater(r.pstats.txcount, r.pstats.rxcount) || r.pstats.rxcount == Int(0) {
        counts[1] := counts[1] + 1;
        res := res + [REVERSE + r.hostname + NORMAL];
      } else {
        counts[0] := counts[0] + 1;
        res := res + [r.hostname];
      }
      i := i + 1;
    }
    assert results[..i] == results;
  }

  /** The loop of the `ccell` branch: each host bumps its counter and adds
      "!" when it is down, "." when it is up. */
  method CcellLoop(results: seq<PingResult>, counts: array<nat>) returns (res: seq<string>)
    requires AllWellFormed(results)
    requires counts.Length == 2 && counts[0] == 0 && counts[1] == 0
    modifies counts
    ensures res == CcellWords(results)
    ensures counts[0] == CountUp(results) && counts[1] == CountDown(results)
  {
    res := [];
    var i := 0;
    while i < |results|
      invariant 0 <= i <= |results|
      invariant counts[0] == CountUp(results[..i]) && counts[1] == CountDown(results[..i])
      invariant res == CcellWords(results[..i])
    {
      var r := results[i];
      CountStep(results, i);
      CcellWordsStep(results, i);
      if Greater(r.pstats.txcount, r.pstats.rxcount) || r.pstats.rxcount == Int(0) {
        counts[1] := counts[1] + 1;
        res := res + ["!"];
      } else {
        counts[0] := counts[0] + 1;
        res := res + ["."];
      }
      i := i + 1;
    }
    assert results[..i] == results;
  }

  /** One more host adds one to exactly one of the two counts. */
  lemma CountStep(results: seq<PingResult>, i: nat)
    requires AllWellFormed(results) && i < |results|
    ensures AllWellFormed(results[..i]) && AllWellFormed(results[..i + 1])
    ensures CountUp(results[..i + 1]) == CountUp(results[..i]) + (if IsDown(results[i]) then 0 else 1)
    ensures CountDown(results[..i + 1]) == CountDown(results[..i]) + (if IsDown(results[i]) then 1 else 0)
  {
    assert results[..i + 1][..i] == results[..i];
  }

  lemma CellWordsStep(results: seq<PingResult>, i: nat)
    requires AllWellFormed(results) && i < |results|
    ensures AllWellFormed(results[..i]) && AllWellFormed(results[..i + 1])
    ensures CellWords(results[..i + 1]) == CellWords(results[..i]) + [CellWord(results[i])]
  {
  }

  lemma CcellWordsStep(results: seq<PingResult>, i: nat)
    requires AllWellFormed(results) && i < |results|
    ensures AllWellFormed(results[..i]) && AllWellFormed(results[..i + 1])
    ensures CcellWords(results[..i + 1]) == CcellWords(results[..i]) + [CcellWord(results[i])]
  {
  }

  // ---------------------------------------------------------------------
  // What the styles promise

  /** The `ccell` marks, one character per host in order. */
  function Marks(results: seq<PingResult>): (m: string)
    requires AllWellFormed(results)
    ensures |m| == |results|
    ensures forall k :: 0 <= k < |results| ==> (m[k] == '!' <==> IsDown(results[k]))
    ensures forall k :: 0 <= k < |results| ==> (m[k] == '.' <==> !IsDown(results[k]))
  {
    seq(|results|, k requires 0 <= k < |results| => if IsDown(results[k]) then '!' else '.')
  }

  /** The ccell entries joined without a separator are the marks: one
      character per host, "!" exactly for the hosts that are down. */
  lemma {:induction false} CcellJoin(results: seq<PingResult>)
    requires AllWellFormed(results)
    ensures Join("", CcellWords(results)) == Marks(results)
  {
    if |results| == 1 {
      assert Marks(results) == CcellWord(results[0]);
    } else if |results| > 1 {
      var ws := CcellWords(results);
      CcellJoin(results[1..]);
      assert ws[1..] == CcellWords(results[1..]);
      assert Marks(results) == CcellWord(results[0]) + Marks(results[1..]);
    }
  }

  /** The tally counts the marks: as many "!" as hosts down and as many "."
      as hosts up. */
  lemma {:induction false} MarksCount(results: seq<PingResult>)
    requires AllWellFormed(results)
    ensures Occurrences(Marks(results), '!') == CountDown(results)
    ensures Occurrences(Marks(results), '.') == CountUp(results)
  {
    if results != [] {
      var n := |results| - 1;
      MarksCount(results[..n]);
      assert Marks(results) == Marks(results[..n]) + [Marks(results)[n]];
    }
  }

  /** Text without a line break followed by the tally splits into two
      lines: that text and "<up> up, <down> down". */
  lemma TallySplits(body: string, up: nat, down: nat)
    requires '\n' !in body
    ensures SplitOn(body + "\n" + TallyLine(up, down), '\n') == [body, TallyLine(up, down)]
  {
    NoNewlineInDigits(up);
    NoNewlineInDigits(down);
    NoNewlineInTallyText(NatToString(up), NatToString(down));
    SplitTwo(body, TallyLine(up, down), '\n');
  }

  /** Host names without a line break keep the `cell` text to two lines:
      the entries joined by spaces, then the tally. */
  lemma CellLines(results: seq<PingResult>)
    requires AllWellFormed(results)
    requires forall k :: 0 <= k < |results| ==> '\n' !in results[k].hostname
    ensures SplitOn(Join(" ", CellWords(results)) + "\n" + TallyLine(CountUp(results), CountDown(results)), '\n')
            == [Join(" ", CellWords(results)), TallyLine(CountUp(results), CountDown(results))]
  {
    CellBodyOneLine(results);
    TallySplits(Join(" ", CellWords(results)), CountUp(results), CountDown(results));
  }

  lemma CellBodyOneLine(results: seq<PingResult>)
    requires AllWellFormed(results)
    requires forall k :: 0 <= k < |results| ==> '\n' !in results[k].hostname
    ensures '\n' !in Join(" ", CellWords(results))
  {
    var ws := CellWords(results);
    forall k | 0 <= k < |ws| ensures '\n' !in ws[k] {
      CellWordOneLine(results[k]);
    }
    JoinAvoids(" ", ws, '\n');
  }

  lemma CellWordOneLine(r: PingResult)
    requires WellFormed(r.pstats) && '\n' !in r.hostname
    ensures '\n' !in CellWord(r)
  {
    var rev, norm := REVERSE, NORMAL;
    assert '\n' !in rev && '\n' !in norm;
    AvoidsConcat(rev, r.hostname, '\n');
    AvoidsConcat(rev + r.hostname, norm, '\n');
  }

  lemma NoNewlineInTallyText(a: string, b: string)
    requires '\n' !in a && '\n' !in b
    ensures '\n' !in a + " up, " + b + " down"
  {
    var u, d := " up, ", " down";
    assert '\n' !in u && '\n' !in d;
    AvoidsConcat(a, u, '\n');
    AvoidsConcat(a + u, b, '\n');
    AvoidsConcat(a + u + b, d, '\n');
  }

  lemma NoNewlineInDigits(n: nat)
    ensures '\n' !in NatToString(n)
  {
    var s := NatToString(n);
    assert forall k :: 0 <= k < |s| ==> IsDigit(s[k]);
  }

  /** The `ccell` text reads back: two lines, the marks and the tally, and
      the tally counts the "." and the "!" among the marks. */
  lemma CcellReadsBack(results: seq<PingResult>)
    requires AllWellFormed(results)
    ensures SplitOn(Join("", CcellWords(results)) + "\n" + TallyLine(CountUp(results), CountDown(results)), '\n')
            == [Marks(results), TallyLine(CountUp(results), CountDown(results))]
    ensures TallyLine(CountUp(results), CountDown(results))
            == TallyLine(Occurrences(Marks(results), '.'), Occurrences(Marks(results), '!'))
  {
    CcellJoin(results);
    MarksCount(results);
    MarksOneLine(results);
    TallySplits(Marks(results), CountUp(results), CountDown(results));
  }

  lemma MarksOneLine(results: seq<PingResult>)
    requires AllWellFormed(results)
    ensures '\n' !in Marks(results)
  {
    var m := Marks(results);
    assert forall k :: 0 <= k < |m| ==> m[k] == '!' || m[k] == '.';
  }

  lemma TallyWords(up: nat, down: nat)
    ensures forall k :: 0 <= k < 4 ==> IsWord([NatToString(up), "up,", NatToString(down), "down"][k])
  {
    NatWord(up);
    NatWord(down);
    assert IsWord("up,") && IsWord("down");
  }

  lemma TallyJoin(a: string, b: string)
    ensures Join(" ", [a, "up,", b, "down"]) == a + " up, " + b + " down"
  {
    JoinCons(" ", a, ["up,", b, "down"]);
    JoinCons(" ", "up,", [b, "down"]);
    JoinCons(" ", b, ["down"]);
    assert " up, " == " " + "up," + " ";
    assert " down" == " " + "down";
  }

  /** The `cell` line reads back: for host names that are single words
      without an escape character, its whitespace fields are the entries,
      one per host in order, and an entry starts with the reverse-video
      escape exactly when its host is down. */
  lemma CellReadsBack(results: seq<PingResult>)
    requires AllWellFormed(results)
    requires forall k :: 0 <= k < |results| ==> IsWord(results[k].hostname) && '\U{1B}' !in results[k].hostname
    ensures Fields(Join(" ", CellWords(results))) == CellWords(results)
    ensures forall k :: 0 <= k < |results| ==>
              (StartsWith(CellWords(results)[k], REVERSE) <==> IsDown(results[k]))
  {
    var ws := CellWords(results);
    forall k | 0 <= k < |ws| ensures IsWord(ws[k]) && (StartsWith(ws[k], REVERSE) <==> IsDown(results[k])) {
      CellWordShape(results[k]);
    }
    FieldsUnwords(ws);
  }

  lemma CellWordShape(r: PingResult)
    requires WellFormed(r.pstats) && IsWord(r.hostname) && '\U{1B}' !in r.hostname
    ensures IsWord(CellWord(r))
    ensures StartsWith(CellWord(r), REVERSE) <==> IsDown(r)
  {
    var rev, norm := REVERSE, NORMAL;
    if IsDown(r) {
      assert IsWord(rev) && IsWord(norm);
      WordConcat(rev, r.hostname);
      WordConcat(rev + r.hostname, norm);
      StartsWithPrefix(rev, r.hostname + norm);
      assert rev + r.hostname + norm == rev + (r.hostname + norm);
    } else {
      assert r.hostname[0] != rev[0];
    }
  }

  /** Three hosts, the third of which lost a reply: `ccell` prints
      "..!" and then "2 up, 1 down". */
  lemma CcellExample(a: string, b: string, c: string)
    ensures AllWellFormed(ThreeHosts(a, b, c))
    ensures Join("", CcellWords(ThreeHosts(a, b, c))) + "\n"
              + TallyLine(CountUp(ThreeHosts(a, b, c)), CountDown(ThreeHosts(a, b, c)))
            == "..!\n2 up, 1 down"
  {
    var rs := ThreeHosts(a, b, c);
    ThreeHostsMarks(a, b, c);
    CcellJoin(rs);
    CcellReadsBack(rs);
    ExampleTally();
    assert TallyLine(CountUp(rs), CountDown(rs)) == TallyLine(2, 1);
    ExampleText();
  }

  lemma ExampleText()
    ensures "..!" + "\n" + "2 up, 1 down" == "..!\n2 up, 1 down"
  {
  }

  lemma ThreeHostsMarks(a: string, b: string, c: string)
    ensures AllWellFormed(ThreeHosts(a, b, c))
    ensures Marks(ThreeHosts(a, b, c)) == "..!"
    ensures Occurrences("..!", '.') == 2 && Occurrences("..!", '!') == 1
  {
    var rs := ThreeHosts(a, b, c);
    assert !IsDown(rs[0]) && !IsDown(rs[1]) && IsDown(rs[2]);
    assert multiset("..!") == multiset{'.', '.', '!'};
  }

  lemma ExampleTally()
    ensures TallyLine(2, 1) == "2 up, 1 down"
  {
    assert NatToString(2) == "2" && NatToString(1) == "1";
  }

  /** Two hosts that answered all five requests and one that answered four. */
  function ThreeHosts(a: string, b: string, c: string): seq<PingResult>
  {
    [PingResult(a, PingStats(Int(5), Int(5), Int(0), Int(4004)), UnknownRtt),
     PingResult(b, PingStats(Int(5), Int(5), Int(0), Int(4005)), UnknownRtt),
     PingResult(c, PingStats(Int(5), Int(4), Int(20), Int(4006)), UnknownRtt)]
  }

  // ---------------------------------------------------------------------
  // pinger and pool.map

  /** What `pinger(host)` returns for the given ping output: the parse's
      exception, or a record of the host holding what the parse found and
      "?" for what it did not. */
  function HostResult(host: string, output: string): (r: Result<PingResult>)
    ensures r.Err? <==> ParseLines(SplitOn(output, '\n')).Err?
    ensures r.Err? ==> r.error == ParseLines(SplitOn(output, '\n')).error
    ensures r.Ok? ==> r.value.hostname == host && WellFormed(r.value.pstats)
  {
    var lines := SplitOn(output, '\n');
    match ParseLines(lines)
    case Err(e) => Err(e)
    case Ok(rep) =>
      ParseLinesFound(lines);
      Ok(NewPingResult(host, rep.pstat, rep.rtts))
  }

  /** The record holds the four "?" of the placeholder exactly when the
      output had no summary line. */
  lemma HostResultNoSummary(host: string, output: string)
    requires HostResult(host, output).Ok?
    ensures HostResult(host, output).value.pstats == UnknownStats <==> !HasSummaryLine(SplitOn(output, '\n'))
  {
    ParseLinesFound(SplitOn(output, '\n'));
  }

  /** Otherwise it holds the counts the last summary line yielded. */
  lemma HostResultLastSummary(host: string, output: string)
    requires HostResult(host, output).Ok? && HasSummaryLine(SplitOn(output, '\n'))
    ensures exists j :: 0 <= j < |SplitOn(output, '\n')| && IsSummaryLine(SplitOn(output, '\n')[j])
                        && SummaryStats(SplitOn(output, '\n')[j]) == Ok(HostResult(host, output).value.pstats)
                        && forall k :: j < k < |SplitOn(output, '\n')| ==> !IsSummaryLine(SplitOn(output, '\n')[k])
  {
    ParseLinesLastWins(SplitOn(output, '\n'));
  }

  /** Without an rtt line the record holds the "?" figures. */
  lemma HostResultNoRtt(host: string, output: string)
    requires HostResult(host, output).Ok?
    requires !HasRttLine(SplitOn(output, '\n'))
    ensures HostResult(host, output).value.rtt == UnknownRtt
  {
    ParseLinesFound(SplitOn(output, '\n'));
  }

  /** Otherwise it holds the figures the last rtt line yielded. */
  lemma HostResultLastRtt(host: string, output: string)
    requires HostResult(host, output).Ok? && HasRttLine(SplitOn(output, '\n'))
    ensures exists j :: 0 <= j < |SplitOn(output, '\n')| && IsRttLine(SplitOn(output, '\n')[j])
                        && RttOf(SplitOn(output, '\n')[j]) == Ok(HostResult(host, output).value.rtt)
                        && forall k :: j < k < |SplitOn(output, '\n')| ==> !IsRttLine(SplitOn(output, '\n')[k])
  {
    ParseLinesFound(SplitOn(output, '\n'));
    ParseLinesLastWins(SplitOn(output, '\n'));
  }

  /** With a transmitted count of ten or more the summary line ping prints
      is not recognised, so the host gets the "?" record and is counted up
      by `cell` and `ccell`, even when it answered nothing (rx == 0). */
  lemma LongCountHostUp(host: string, header: seq<string>, tx: nat, rx: nat, loss: nat, time: nat)
    requires forall k :: 0 <= k < |header| ==> !IsSummaryLine(header[k]) && !IsRttLine(header[k]) && '\n' !in header[k]
    requires tx >= 10
    ensures HostResult(host, Join("\n", header + [Join(" ", PlainSummaryWords(tx, rx, loss, time))]))
            == Ok(NewPingResult(host))
    ensures !IsDown(NewPingResult(host))
  {
    var summary := Join(" ", PlainSummaryWords(tx, rx, loss, time));
    LongSummaryUnmatched(tx, rx, loss, time);
    UnmatchedAfterHeader(header, summary);
    UnmatchedLinesParse(header + [summary]);
    HostResultOfNothing(host, Join("\n", header + [summary]));
  }

  lemma UnmatchedAfterHeader(header: seq<string>, line: string)
    requires forall k :: 0 <= k < |header| ==> !IsSummaryLine(header[k]) && !IsRttLine(header[k]) && '\n' !in header[k]
    requires !IsSummaryLine(line) && !IsRttLine(line) && '\n' !in line
    ensures forall k :: 0 <= k < |header + [line]| ==>
              !IsSummaryLine((header + [line])[k]) && !IsRttLine((header + [line])[k]) && '\n' !in (header + [line])[k]
  {
    var lines := header + [line];
    forall k | 0 <= k < |lines|
      ensures !IsSummaryLine(lines[k]) && !IsRttLine(lines[k]) && '\n' !in lines[k]
    {
      if k < |header| {
        assert lines[k] == header[k];
      }
    }
  }

  /** The summary line with a count of ten or more matches neither test. */
  lemma LongSummaryUnmatched(tx: nat, rx: nat, loss: nat, time: nat)
    requires tx >= 10
    ensures !IsSummaryLine(Join(" ", PlainSummaryWords(tx, rx, loss, time)))
    ensures !IsRttLine(Join(" ", PlainSummaryWords(tx, rx, loss, time)))
    ensures '\n' !in Join(" ", PlainSummaryWords(tx, rx, loss, time))
  {
    PlainSummaryRoundTrip(tx, rx, loss, time);
    PlainSummaryOnOneLine(tx, rx, loss, time);
    DigitLineIsNotRtt(tx, rx, loss, time);
  }

  /** Lines free of line breaks that match neither test, written out one
      per line, parse to nothing found. */
  lemma UnmatchedLinesParse(lines: seq<string>)
    requires forall k :: 0 <= k < |lines| ==> !IsSummaryLine(lines[k]) && !IsRttLine(lines[k]) && '\n' !in lines[k]
    requires |lines| > 0
    ensures ParseLines(SplitOn(Join("\n", lines), '\n')) == Ok(Report(None, None))
  {
    SplitJoin(lines, '\n');
    var kinds := KindsOf(lines);
    assert forall k :: 0 <= k < |kinds| ==> kinds[k] == OtherLine;
    RunOthers(kinds);
  }

  lemma HostResultOfNothing(host: string, output: string)
    requires ParseLines(SplitOn(output, '\n')) == Ok(Report(None, None))
    ensures HostResult(host, output) == Ok(NewPingResult(host))
  {
  }

  /** The summary line starts with a digit, so it is never an rtt line. */
  lemma DigitLineIsNotRtt(tx: nat, rx: nat, loss: nat, time: nat)
    ensures !IsRttLine(Join(" ", PlainSummaryWords(tx, rx, loss, time)))
  {
    var ws := PlainSummaryWords(tx, rx, loss, time);
    JoinCons(" ", ws[0], ws[1..]);
    assert ws == [ws[0]] + ws[1..];
    var line := Join(" ", ws);
    assert line[0] == NatToString(tx)[0];
    assert IsDigit(line[0]);
    assert RttPrefix[0] == 'r';
  }

  /** `pinger(host)` given the output ping printed for it. */
  method Pinger(host: string, output: string) returns (r: Result<PingResult>)
    ensures r == HostResult(host, output)
  {
    var rep := ParseReport(output);
    match rep
    case Err(e) =>
      r := Err(e);
    case Ok(report) =>
      r := Ok(NewPingResult(host, report.pstat, report.rtts));
  }

  /** `pool.map(pinger, targets)` run one host after another: the records
      come back in the order of the hosts, and an exception in any host's
      parse is raised instead. */
  method PingAll(hosts: seq<string>, outputs: seq<string>) returns (r: Result<seq<PingResult>>)
    requires |outputs| == |hosts|
    ensures r.Ok? <==> forall k :: 0 <= k < |hosts| ==> HostResult(hosts[k], outputs[k]).Ok?
    ensures r.Ok? ==> |r.value| == |hosts|
    ensures r.Ok? ==> forall k :: 0 <= k < |hosts| ==> r.value[k] == HostResult(hosts[k], outputs[k]).value
    ensures r.Ok? ==> AllWellFormed(r.value)
    ensures r.Err? ==> exists k :: 0 <= k < |hosts| && HostResult(hosts[k], outputs[k]) == Err(r.error)
                                   && forall j :: 0 <= j < k ==> HostResult(hosts[j], outputs[j]).Ok?
  {
    var done: seq<PingResult> := [];
    var i := 0;
    while i < |hosts|
      invariant 0 <= i <= |hosts| && |done| == i
      invariant forall k :: 0 <= k < i ==> HostResult(hosts[k], outputs[k]) == Ok(done[k])
    {
      var one := Pinger(hosts[i], outputs[i]);
      if one.Err? {
        assert HostResult(hosts[i], outputs[i]) == Err(one.error);
        return Err(one.error);
      }
      done := done + [one.value];
      i := i + 1;
    }
    assert forall k :: 0 <= k < |hosts| ==> HostResult(hosts[k], outputs[k]) == Ok(done[k]);
    return Ok(done);
  }

  // ---------------------------------------------------------------------
  // A host that answered

  /** Whatever lines come first, a report ending in the summary line and
      the rtt line ping prints gives the host's record with the printed
      numbers and figures (whether that host is up then follows from
      IsDown). */
  lemma AnsweredHost(host: string, header: seq<string>, tx: nat, rx: nat, loss: nat, time: nat, t: RttStats)
    requires forall k :: 0 <= k < |header| ==> !IsSummaryLine(header[k]) && !IsRttLine(header[k]) && '\n' !in header[k]
    requires tx < 10
    requires IsFigure(t.rmin) && IsFigure(t.ravg) && IsFigure(t.rmax) && IsFigure(t.rmdev)
    ensures HostResult(host, Join("\n", header + [Join(" ", PlainSummaryWords(tx, rx, loss, time)),
                                                   Join(" ", RttWords(t.rmin, t.ravg, t.rmax, t.rmdev))]))
            == Ok(PingResult(host, PingStats(Int(tx), Int(rx), Int(loss), Int(time)), t))
  {
    OutputRoundTrip(header, tx, rx, loss, time, t);
    HostResultOfReport(host, Join("\n", header + [Join(" ", PlainSummaryWords(tx, rx, loss, time)),
                                                  Join(" ", RttWords(t.rmin, t.ravg, t.rmax, t.rmdev))]),
                       PingStats(Int(tx), Int(rx), Int(loss), Int(time)), t);
  }

  lemma HostResultOfReport(host: string, output: string, stats: PingStats, t: RttStats)
    requires ParseLines(SplitOn(output, '\n')) == Ok(Report(Some(stats), Some(t)))
    ensures HostResult(host, output) == Ok(PingResult(host, stats, t))
  {
  }
}
