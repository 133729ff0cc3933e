/** The records both iterations of the ping tool declare alike
    (transonic2.py:22-23, transonic.py:13-14): `pingstats` and `rttstats`,
    the "?" placeholders a result record falls back to, and the one-line
    rendering "<host> S<tx>/R<rx>, maMD: <min>/<avg>/<max>/<mdev>" both
    `Pingresult.__str__` methods produce. */
module PingRecord {
  import opened PyText

  /** One field of a `pingstats` record: an integer read from the report, or
      the placeholder string "?". */
  datatype Field = Int(n: nat) | Question

  /** `pingstats(txcount, rxcount, lossprc, totaltm)` */
  datatype PingStats = PingStats(txcount: Field, rxcount: Field, lossprc: Field, totaltm: Field)

  /** `rttstats(rmin, ravg, rmax, rmdev)`: kept as the text ping printed. */
  datatype RttStats = RttStats(rmin: string, ravg: string, rmax: string, rmdev: string)

  /** `pingstats("?", "?", "?", "?")` */
  const UnknownStats := PingStats(Question, Question, Question, Question)

  /** `rttstats("?", "?", "?", "?")` */
  const UnknownRtt := RttStats("?", "?", "?", "?")

  /** A record read from a summary line: four integers. */
  predicate Numeric(p: PingStats)
  {
    p.txcount.Int? && p.rxcount.Int? && p.lossprc.Int? && p.totaltm.Int?
  }

  /** The records that exist: read from a summary line (four integers) or
      the placeholder (four "?"). No other mix is ever built. */
  predicate WellFormed(p: PingStats)
  {
    Numeric(p) || p == UnknownStats
  }

  /** `"%s" % field` */
  function FieldText(f: Field): (s: string)
    ensures IsWord(s)
    ensures f.Int? ==> ParseNat(s) == Some(f.n)
    ensures f.Question? <==> s == "?"
  {
    match f
    case Int(n) =>
      ParseNatToString(n);
      NatToString(n)
    case Question => "?"
  }

  /** The text between the slashes of the rtt part. */
  function RttText(t: RttStats): string
  {
    Join("/", [t.rmin, t.ravg, t.rmax, t.rmdev])
  }

  /** `"%s S%s/R%s, maMD: %s/%s/%s/%s" % (hostname, txcount, rxcount, rmin, ravg, rmax, rmdev)` */
  function RenderLine(hostname: string, p: PingStats, t: RttStats): (s: string)
    ensures s == Join(" ", [hostname, "S" + FieldText(p.txcount) + "/R" + FieldText(p.rxcount) + ",", "maMD:", RttText(t)])
  {
    RenderJoin(hostname, "S" + FieldText(p.txcount) + "/R" + FieldText(p.rxcount) + ",", RttText(t));
    RenderRegroup(hostname, FieldText(p.txcount), FieldText(p.rxcount), RttText(t));
    hostname + " S" + FieldText(p.txcount) + "/R" + FieldText(p.rxcount) + ", maMD: " + RttText(t)
  }

  /** A figure as ping prints it in the rtt line: no whitespace and no "/". */
  predicate IsFigure(s: string)
  {
    forall k :: 0 <= k < |s| ==> !IsSpace(s[k]) && s[k] != '/'
  }

  /** Four figures joined by "/" form one field that splits back into them. */
  lemma RttTextSplits(t: RttStats)
    requires IsFigure(t.rmin) && IsFigure(t.ravg) && IsFigure(t.rmax) && IsFigure(t.rmdev)
    ensures IsWord(RttText(t))
    ensures SplitOn(RttText(t), '/') == [t.rmin, t.ravg, t.rmax, t.rmdev]
  {
    var parts := [t.rmin, t.ravg, t.rmax, t.rmdev];
    var text := RttText(t);
    JoinCons("/", t.rmin, [t.ravg, t.rmax, t.rmdev]);
    JoinCons("/", t.ravg, [t.rmax, t.rmdev]);
    JoinCons("/", t.rmax, [t.rmdev]);
    assert text == t.rmin + "/" + (t.ravg + "/" + (t.rmax + "/" + t.rmdev));
    forall k | 0 <= k < |text| ensures !IsSpace(text[k]) {
      FigureCharAt(t.rmin, t.ravg + "/" + (t.rmax + "/" + t.rmdev), k);
      var k1 := k - |t.rmin| - 1;
      if k1 >= 0 {
        FigureCharAt(t.ravg, t.rmax + "/" + t.rmdev, k1);
        var k2 := k1 - |t.ravg| - 1;
        if k2 >= 0 {
          FigureCharAt(t.rmax, t.rmdev, k2);
          var k3 := k2 - |t.rmax| - 1;
          if k3 >= 0 {
            assert (t.rmax + "/" + t.rmdev)[k2] == t.rmdev[k3];
          }
        }
      }
    }
    forall k | 0 <= k < 4 ensures '/' !in parts[k] {
      if '/' in parts[k] {
        var j :| 0 <= j < |parts[k]| && parts[k][j] == '/';
      }
    }
    SplitJoin(parts, '/');
  }

  /** Where a character of fig + "/" + rest comes from. */
  lemma FigureCharAt(fig: string, rest: string, k: int)
    requires 0 <= k < |fig + "/" + rest|
    ensures k < |fig| ==> (fig + "/" + rest)[k] == fig[k]
    ensures k == |fig| ==> (fig + "/" + rest)[k] == '/'
    ensures k > |fig| ==> (fig + "/" + rest)[k] == rest[k - |fig| - 1]
  {
  }

  /** The format string puts single spaces exactly between the host name,
      the counts, "maMD:" and the figures. */
  lemma RenderRegroup(h: string, tx: string, rx: string, rtt: string)
    ensures h + " S" + tx + "/R" + rx + ", maMD: " + rtt
            == h + " " + (("S" + tx + "/R" + rx + ",") + " " + ("maMD:" + " " + rtt))
  {
    assert " S" == " " + "S";
    assert ", maMD: " == "," + " " + "maMD:" + " ";
  }

  lemma RenderJoin(h: string, counts: string, rtt: string)
    ensures Join(" ", [h, counts, "maMD:", rtt]) == h + " " + (counts + " " + ("maMD:" + " " + rtt))
  {
    JoinCons(" ", h, [counts, "maMD:", rtt]);
    JoinCons(" ", counts, ["maMD:", rtt]);
    JoinCons(" ", "maMD:", [rtt]);
  }

  /** "S<tx>/R<rx>," is a single field when both counts are. */
  lemma CountsWord(tx: string, rx: string)
    requires IsWord(tx) && IsWord(rx)
    ensures IsWord("S" + tx + "/R" + rx + ",")
  {
    assert IsWord("S") && IsWord("/R") && IsWord(",");
    WordConcat("S", tx);
    WordConcat("S" + tx, "/R");
    WordConcat("S" + tx + "/R", rx);
    WordConcat("S" + tx + "/R" + rx, ",");
  }

  /** The rendering reads back: its whitespace fields are the host name,
      "S<tx>/R<rx>,", "maMD:" and the four rtt figures joined by "/". */
  lemma RenderLineFields(hostname: string, p: PingStats, t: RttStats)
    requires IsWord(hostname)
    requires IsFigure(t.rmin) && IsFigure(t.ravg) && IsFigure(t.rmax) && IsFigure(t.rmdev)
    ensures Fields(RenderLine(hostname, p, t))
            == [hostname, "S" + FieldText(p.txcount) + "/R" + FieldText(p.rxcount) + ",", "maMD:", RttText(t)]
    ensures SplitOn(Fields(RenderLine(hostname, p, t))[3], '/') == [t.rmin, t.ravg, t.rmax, t.rmdev]
  {
    var counts := "S" + FieldText(p.txcount) + "/R" + FieldText(p.rxcount) + ",";
    var ws := [hostname, counts, "maMD:", RttText(t)];
    RttTextSplits(t);
    CountsWord(FieldText(p.txcount), FieldText(p.rxcount));
    assert IsWord("maMD:");
    FieldsUnwords(ws);
  }
}
