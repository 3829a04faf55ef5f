/**
 * `analyze_url`: the signals gathered for one URL (domain, WHOIS creation date, whether
 * the redirected URL is HTTPS, the VirusTotal summary) and the first-match-wins rule that
 * turns them into one of three labels. The WHOIS lookup, the HTTP fetch and the
 * VirusTotal request are inputs: their outcomes are parameters here.
 */
module UrlAnalysis {

  import opened Optional
  import opened DateFormat
  import opened VirusTotal

  /** The three labels, stored and shown by their Korean names. */
  datatype Label = Safe | Suspicious | Dangerous {
    function Name(): (s: string)
      ensures |s| == 2
    {
      match this
      case Safe => "안전"
      case Suspicious => "의심"
      case Dangerous => "위험"
    }
  }

  /** The label column stores the name, and no two labels share one. */
  lemma NameInjective(l: Label, m: Label)
    ensures l.Name() == m.Name() <==> l == m
  {
  }

  /** The parts of `urlparse(url)` the analyser uses. */
  datatype UrlParts = UrlParts(netloc: string, path: string)

  /** The outcome of `urlparse(url)`: the parts, or the `str(e)` of the exception it raised. */
  datatype UrlParse = UrlParseRaised(message: string) | UrlParsed(parts: UrlParts)

  /** The analysis result dictionary; `error` is the `"error"` key, added only when the analysis raised. */
  datatype Analysis = Analysis(
    originalUrl: string,
    finalUrl: Option<string>,
    domain: Option<string>,
    whoisCreationDate: Option<string>,
    sslValid: bool,
    virustotalScore: Option<string>,
    phishtankResult: bool,
    verdict: Option<Label>,  // the "label" key
    error: Option<string>)

  const HttpsScheme: string := "https://"

  /** `parsed.netloc or parsed.path`: the network location, or the path when there is none. */
  function DomainOf(parts: UrlParts): (d: string)
    ensures parts.netloc != "" ==> d == parts.netloc
    ensures parts.netloc == "" ==> d == parts.path
    ensures d == "" <==> parts.netloc == "" && parts.path == ""
  {
    if parts.netloc != "" then parts.netloc else parts.path
  }

  /**
   * `r.url.startswith("https://")` for the URL the redirects ended at; a fetch that
   * raised (`None`) leaves the default `False`.
   */
  function SslValid(fetched: Option<string>): (ok: bool)
    ensures ok <==> fetched.Some? && |fetched.value| >= 8 &&
                    fetched.value[0] == 'h' && fetched.value[1] == 't' && fetched.value[2] == 't' &&
                    fetched.value[3] == 'p' && fetched.value[4] == 's' && fetched.value[5] == ':' &&
                    fetched.value[6] == '/' && fetched.value[7] == '/'
  {
    fetched.Some? && HttpsScheme <= fetched.value
  }

  /**
   * The labelling rule, first match wins: no HTTPS is dangerous; otherwise a creation date
   * from 2023 on is suspicious and an older one safe; no creation date is suspicious.
   * `None` stands for `strptime` raising on the stored date text, which leaves the label
   * unset.
   */
  function Classify(sslValid: bool, whoisCreationDate: Option<string>): Option<Label>
  {
    if !sslValid then Some(Dangerous)
    else if whoisCreationDate.Some? && whoisCreationDate.value != "" then
      match Parse(whoisCreationDate.value)
      case None => None
      case Some(d) => if d.year >= 2023 then Some(Suspicious) else Some(Safe)
    else Some(Suspicious)
  }

  /** Without HTTPS the label is dangerous, whatever the creation date. */
  lemma ClassifyWithoutHttps(whoisCreationDate: Option<string>)
    ensures Classify(false, whoisCreationDate) == Some(Dangerous)
  {
  }

  /** With HTTPS and a creation date, the year of that date decides. */
  lemma ClassifyByYear(d: Instant)
    ensures Classify(true, Some(Format(d))) == Some(if d.year >= 2023 then Suspicious else Safe)
  {
    FormatParse(d);
  }

  /** With HTTPS and no creation date the label is suspicious. */
  lemma ClassifyWithoutDate()
    ensures Classify(true, None) == Some(Suspicious)
  {
  }

  /**
   * From the signals as the analyser derives them, the rule always yields a label, and
   * each label has exactly one reason.
   */
  lemma ClassifySignals(fetched: Option<string>, whois: WhoisReply)
    ensures var verdict := Classify(SslValid(fetched), CreationDateText(whois));
            var created := CreationInstant(whois);
            && verdict.Some?
            && (verdict == Some(Dangerous) <==> !SslValid(fetched))
            && (verdict == Some(Safe) <==> SslValid(fetched) && created.Some? && created.value.year < 2023)
            && (verdict == Some(Suspicious) <==>
                  SslValid(fetched) && (created.None? || created.value.year >= 2023))
  {
    CreationDateTextParses(whois);
    if CreationInstant(whois).Some? {
      ClassifyByYear(CreationInstant(whois).value);
    }
  }

  /**
   * `analyze_url(url)`: starts from the default result and overwrites its fields step by
   * step. `parse` is the outcome of `urlparse`: when it raised, the analysis ends with only
   * the `"error"` key added. `whois`, `fetched` (the URL the redirects ended at, `None` when
   * the request raised) and `vt` are the outcomes of the three lookups, and `apiKey` the
   * VirusTotal key setting. The other statement inside the outer `try` that can raise is
   * `strptime`, and it never does: it reads text that `strftime` wrote (`ClassifySignals`).
   */
  method AnalyzeUrl(url: string, parse: UrlParse, whois: WhoisReply, fetched: Option<string>,
                    apiKey: Option<string>, vt: VtReply) returns (result: Analysis)
    ensures result.originalUrl == url && !result.phishtankResult
    ensures parse.UrlParseRaised? ==>
              result == Analysis(url, None, None, None, false, None, false, None, Some(parse.message))
    ensures parse.UrlParsed? ==>
              && result.domain == Some(DomainOf(parse.parts))
              && result.whoisCreationDate == CreationDateText(whois)
              && result.sslValid == SslValid(fetched)
              && result.finalUrl == fetched
              && result.virustotalScore == Some(CheckVirusTotal(apiKey, vt))
              && result.verdict == Classify(result.sslValid, result.whoisCreationDate)
              && result.verdict.Some? && result.error.None?
  {
    result := Analysis(url, None, None, None, false, None, false, None, None);
    if parse.UrlParseRaised? {
      result := result.(error := Some(parse.message));
      return;
    }
    result := result.(domain := Some(DomainOf(parse.parts)));
    result := result.(whoisCreationDate := CreationDateText(whois));
    match fetched {
      case Some(finalUrl) =>
        result := result.(sslValid := HttpsScheme <= finalUrl, finalUrl := Some(finalUrl));
      case None =>
        result := result.(sslValid := false);
    }
    result := result.(virustotalScore := Some(CheckVirusTotal(apiKey, vt)));
    ClassifySignals(fetched, whois);
    var verdict := Classify(result.sslValid, result.whoisCreationDate);
    result := result.(verdict := verdict);
  }
}
