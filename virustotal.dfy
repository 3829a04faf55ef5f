/**
 * `check_virustotal`: the VirusTotal lookup of a URL reduced to the summary string that
 * is stored as `virustotal_score`. The HTTP request itself (and the base64url id of the
 * URL it is sent for) is outside the model; its outcome is an input.
 */
module VirusTotal {

  import opened Optional
  import opened Decimal

  /**
   * What the request produced: an exception (raised by the request, or by a 200 body
   * without `data.attributes.last_analysis_stats`) with its `str(e)`, or an HTTP status
   * with the `last_analysis_stats` object of the body.
   */
  datatype VtReply = Raised(message: string) | Responded(status: int, stats: map<string, int>)

  /** The four tallies of `last_analysis_stats` the summary reports. */
  datatype Counts = Counts(malicious: int, suspicious: int, harmless: int, undetected: int)

  const NoKeyText: string := "API key not set"
  const NotFoundText: string := "URL not found in VT"
  const ErrorPrefix: string := "error: "

  /** `stats.get(key, 0)`. */
  function StatOrZero(stats: map<string, int>, key: string): int
  {
    if key in stats then stats[key] else 0
  }

  function CountsOf(stats: map<string, int>): Counts
  {
    Counts(StatOrZero(stats, "malicious"), StatOrZero(stats, "suspicious"),
           StatOrZero(stats, "harmless"), StatOrZero(stats, "undetected"))
  }

  /** `f"{malicious} malicious / {suspicious} suspicious / {harmless} harmless / {undetected} undetected"`. */
  function Summary(c: Counts): string
  {
    IntToString(c.malicious) + " malicious / " + IntToString(c.suspicious) + " suspicious / " +
    IntToString(c.harmless) + " harmless / " + IntToString(c.undetected) + " undetected"
  }

  /**
   * `check_virustotal(url)` given the API key setting (unset and empty both count as not
   * set) and the outcome of the request.
   */
  function CheckVirusTotal(apiKey: Option<string>, reply: VtReply): (r: string)
  {
    if apiKey.None? || apiKey.value == "" then NoKeyText
    else
      match reply
      case Raised(message) => ErrorPrefix + message
      case Responded(status, stats) =>
        if status == 200 then Summary(CountsOf(stats))
        else if status == 404 then NotFoundText
        else ErrorPrefix + IntToString(status)
  }

  /** The rest of `s` after the literal `lit`, if `s` starts with it. */
  function Expect(lit: string, s: string): Option<string>
  {
    if |lit| <= |s| && s[..|lit|] == lit then Some(s[|lit|..]) else None
  }

  /** Reads a number followed by the literal `lit` off the front of `s`. */
  function ReadField(s: string, lit: string): Option<(int, string)>
  {
    match ReadInt(s)
    case None => None
    case Some((n, rest)) =>
      match Expect(lit, rest)
      case None => None
      case Some(rest') => Some((n, rest'))
  }

  /** Recovers the four tallies from a summary string, or `None` for any other text. */
  function ReadSummary(s: string): Option<Counts>
  {
    match ReadField(s, " malicious / ")
    case None => None
    case Some((m, s1)) =>
      match ReadField(s1, " suspicious / ")
      case None => None
      case Some((su, s2)) =>
        match ReadField(s2, " harmless / ")
        case None => None
        case Some((h, s3)) =>
          match ReadField(s3, " undetected")
          case Some((u, s4)) => if s4 == [] then Some(Counts(m, su, h, u)) else None
          case None => None
  }

  lemma ReadFieldOf(n: int, lit: string, rest: string)
    requires |lit| > 0 && lit[0] == ' '
    ensures ReadField(IntToString(n) + (lit + rest), lit) == Some((n, rest))
  {
    assert (lit + rest)[0] == ' ';
    ReadIntToString(n, lit + rest);
    assert (lit + rest)[..|lit|] == lit && (lit + rest)[|lit|..] == rest;
  }

  /** The summary loses nothing: the four tallies can be read back from it. */
  lemma SummaryRoundTrip(c: Counts)
    ensures ReadSummary(Summary(c)) == Some(c)
  {
    var m, s, h, u := IntToString(c.malicious), IntToString(c.suspicious),
                      IntToString(c.harmless), IntToString(c.undetected);
    var t3 := u + (" undetected" + []);
    var t2 := h + (" harmless / " + t3);
    var t1 := s + (" suspicious / " + t2);
    var t0 := m + (" malicious / " + t1);
    assert Summary(c) == t0;
    ReadFieldOf(c.malicious, " malicious / ", t1);
    ReadFieldOf(c.suspicious, " suspicious / ", t2);
    ReadFieldOf(c.harmless, " harmless / ", t3);
    ReadFieldOf(c.undetected, " undetected", []);
  }

  lemma NotASummary(s: string)
    requires |s| > 0 && !IsDigit(s[0]) && s[0] != '-'
    ensures ReadSummary(s) == None
  {
  }

  predicate KeySet(apiKey: Option<string>) {
    apiKey.Some? && apiKey.value != ""
  }

  /** An "error: ..." text is never one of the other outcomes. */
  lemma ErrorTextDistinct(message: string)
    ensures ReadSummary(ErrorPrefix + message) == None
    ensures Expect(ErrorPrefix, ErrorPrefix + message).Some?
    ensures ErrorPrefix + message != NoKeyText && ErrorPrefix + message != NotFoundText
  {
    var r := ErrorPrefix + message;
    assert r[0] == 'e' && r[..|ErrorPrefix|] == ErrorPrefix;
    NotASummary(r);
  }

  /** A summary is never one of the other outcomes. */
  lemma SummaryDistinct(c: Counts)
    ensures ReadSummary(Summary(c)) == Some(c)
    ensures Expect(ErrorPrefix, Summary(c)).None?
    ensures Summary(c) != NoKeyText && Summary(c) != NotFoundText
  {
    SummaryRoundTrip(c);
    IntToStringStart(c.malicious);
    var r := Summary(c);
    assert r[0] == IntToString(c.malicious)[0];
    assert |r| > |ErrorPrefix| && r[..|ErrorPrefix|][0] == r[0] != ErrorPrefix[0];
  }

  /**
   * The score string tells the four outcomes of `check_virustotal` apart: it reads back
   * as tallies exactly for a 200 answer (with each missing tally 0), it is the no-key text
   * exactly when no key is set, the not-found text exactly for a 404 answer, and it starts
   * with "error: " exactly when the request raised or answered with any other status, and
   * what follows is then the exception's text or the status number.
   */
  lemma CheckVirusTotalOutcomes(apiKey: Option<string>, reply: VtReply)
    ensures ReadSummary(CheckVirusTotal(apiKey, reply)).Some? <==>
              KeySet(apiKey) && reply.Responded? && reply.status == 200
    ensures ReadSummary(CheckVirusTotal(apiKey, reply)).Some? ==>
              ReadSummary(CheckVirusTotal(apiKey, reply)).value == CountsOf(reply.stats)
    ensures CheckVirusTotal(apiKey, reply) == NoKeyText <==> !KeySet(apiKey)
    ensures CheckVirusTotal(apiKey, reply) == NotFoundText <==>
              KeySet(apiKey) && reply.Responded? && reply.status == 404
    ensures Expect(ErrorPrefix, CheckVirusTotal(apiKey, reply)).Some? <==>
              KeySet(apiKey) && (reply.Raised? || (reply.status != 200 && reply.status != 404))
    ensures KeySet(apiKey) && reply.Raised? ==> CheckVirusTotal(apiKey, reply) == ErrorPrefix + reply.message
    ensures KeySet(apiKey) && reply.Responded? && reply.status != 200 && reply.status != 404 ==>
              Expect(ErrorPrefix, CheckVirusTotal(apiKey, reply)).Some? &&
              ReadInt(Expect(ErrorPrefix, CheckVirusTotal(apiKey, reply)).value) == Some((reply.status, []))
  {
    var r := CheckVirusTotal(apiKey, reply);
    if !KeySet(apiKey) {
      assert r == NoKeyText;
      NotASummary(r);
    } else {
      match reply
      case Raised(message) =>
        ErrorTextDistinct(message);
      case Responded(status, stats) =>
        if status == 200 {
          SummaryDistinct(CountsOf(stats));
        } else if status == 404 {
          assert r == NotFoundText;
          NotASummary(r);
        } else {
          ErrorTextDistinct(IntToString(status));
          ReadIntToString(status, []);
          assert IntToString(status) + [] == IntToString(status);
        }
    }
  }
}
