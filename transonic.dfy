/** The first iteration of the ping tool (transonic.py): a `Pingresult`
    that also carries an output style, its rendering, and `pinger` as the
    report parse of one host's ping output. The parse loop is the same one
    the second iteration runs. */
module Transonic {
  import opened PyText
  import opened PingRecord
  import opened PingOutput
  import Transonic2

  /** `Pingresult` with its `style` field. */
  datatype StyledResult = StyledResult(hostname: string, pstats: PingStats, rtt: RttStats, style: string)

  /** `Pingresult(hostname="UNKNOWN", pstats=None, rtt=None, style="line")` */
  function NewStyledResult(hostname: string := "UNKNOWN", pstats: Option<PingStats> := None,
                           rtt: Option<RttStats> := None, style: string := "line"): (r: StyledResult)
    ensures r.hostname == hostname && r.style == style
    ensures pstats.Some? ==> r.pstats == pstats.value
    ensures pstats.None? ==> r.pstats == UnknownStats
    ensures rtt.Some? ==> r.rtt == rtt.value
    ensures rtt.None? ==> r.rtt == UnknownRtt
  {
    StyledResult(hostname,
                 if pstats.Some? then pstats.value else UnknownStats,
                 if rtt.Some? then rtt.value else UnknownRtt,
                 style)
  }

  /** `Pingresult.__str__`: the one-line rendering for style "line", and a
      complaint naming the style and the host for any other. */
  function Str(r: StyledResult): (s: string)
    ensures r.style == "line" ==> s == Transonic2.Str(Unstyled(r))
    ensures r.style != "line" ==> StartsWith(s, "Unknown style '") && s[|s| - 1] == '\''
  {
    if r.style == "line" then RenderLine(r.hostname, r.pstats, r.rtt)
    else "Unknown style '" + r.style + "' for '" + r.hostname + "'"
  }

  /** The record without its style, as the second iteration keeps it. */
  function Unstyled(r: StyledResult): Transonic2.PingResult
  {
    Transonic2.PingResult(r.hostname, r.pstats, r.rtt)
  }

  /** The default style is "line", which renders as the second iteration does. */
  lemma DefaultStyleIsLine(hostname: string, pstats: Option<PingStats>, rtt: Option<RttStats>)
    ensures Str(NewStyledResult(hostname, pstats, rtt))
            == Transonic2.Str(Transonic2.NewPingResult(hostname, pstats, rtt))
  {
  }

  /** Any other style gives the complaint, which depends on the style and
      the host name only: the style and the host name, each quoted, read
      back from fixed places in it, and it carries neither counts nor
      figures. */
  lemma UnknownStyleMessage(r: StyledResult, s: StyledResult)
    requires r.style != "line"
    requires s.style == r.style && s.hostname == r.hostname
    ensures Str(r) == Str(s)
    ensures StartsWith(Str(r), "Unknown style '")
    ensures |Str(r)| == |r.style| + |r.hostname| + 23
    ensures Str(r)[..15] == "Unknown style '"
    ensures Str(r)[15..15 + |r.style|] == r.style
    ensures Str(r)[15 + |r.style|..22 + |r.style|] == "' for '"
    ensures Str(r)[22 + |r.style|..|Str(r)| - 1] == r.hostname
    ensures Str(r)[|Str(r)| - 1] == '\''
  {
  }

  /** A record this iteration's `pinger` builds: the placeholder counts or
      four integers, and the default style. */
  function HostResult(host: string, output: string): (r: Result<StyledResult>)
    ensures r.Err? <==> ParseLines(SplitOn(output, '\n')).Err?
    ensures r.Err? ==> r.error == ParseLines(SplitOn(output, '\n')).error
    ensures r.Ok? ==> r.value.hostname == host && r.value.style == "line" && WellFormed(r.value.pstats)
  {
    var lines := SplitOn(output, '\n');
    match ParseLines(lines)
    case Err(e) => Err(e)
    case Ok(rep) =>
      ParseLinesFound(lines);
      Ok(NewStyledResult(host, rep.pstat, rep.rtts))
  }

  /** `pinger(host)` given the output ping printed for it. */
  method Pinger(host: string, output: string) returns (r: Result<StyledResult>)
    ensures r == HostResult(host, output)
  {
    var rep := ParseReport(output);
    match rep
    case Err(e) =>
      r := Err(e);
    case Ok(report) =>
      r := Ok(NewStyledResult(host, report.pstat, report.rtts));
  }

  /** Both iterations make the same record of the same output and render
      it the same way. */
  lemma IterationsAgree(host: string, output: string)
    ensures HostResult(host, output).Ok? <==> Transonic2.HostResult(host, output).Ok?
    ensures HostResult(host, output).Ok? ==>
              Unstyled(HostResult(host, output).value) == Transonic2.HostResult(host, output).value
              && Str(HostResult(host, output).value) == Transonic2.Str(Transonic2.HostResult(host, output).value)
  {
  }
}
