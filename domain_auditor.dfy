/**
 * The auditor object of domain_auditor.py: the audit target and DKIM settings,
 * three cached record fields, the three record fetchers and the record-count
 * checks of the three validators. DNS resolution is a function supplied by
 * the caller; each fetcher reports the queries it issued.
 */
module DomainAuditor {
  import opened Optional
  import opened AnswerFilter
  import SelectorInput

  /** The `dkim_selector` argument: a string by default, a list of names when
      daud.py builds the auditor. Only its length is ever consulted. */
  datatype SelectorArg = SelectorText(text: string) | SelectorList(names: seq<string>) {
    /** Python's `len` of the argument. */
    function Len(): nat {
      match this
      case SelectorText(t) => |t|
      case SelectorList(ns) => |ns|
    }
  }

  /** One DNS query: the name asked for and the record type. */
  datatype Query = Query(name: string, recordType: string)

  /** What the resolver gives for a query: the answer texts, or a DNS exception. */
  datatype Resolution = Answers(texts: seq<string>) | DnsFailure

  /** A fetcher's outcome: the selected records, or the DNS exception passed on
      (the fetchers do not catch it). */
  datatype FetchOutcome = Fetched(records: seq<string>) | RaisedDnsError

  /** The record kinds audited. */
  datatype Kind = Spf | Dkim | Dmarc

  /** Why a validator returned False; each comes with its own console line. */
  datatype Reason = NotFetched | NoneFound | MultipleFound

  /** The Python exceptions a validator ends in on the paths not returning False. */
  datatype PyError = TypeError | UnboundLocalError

  /** How a validator call ends. */
  datatype Outcome = ReturnedFalse(reason: Reason) | Raised(error: PyError)

  /** The diagnostic line printed before a validator returns False. The two DMARC
      lines after "not fetched" are never printed: `validate_dmarc` raises on the
      line that would lead to them. */
  function Diagnostic(kind: Kind, reason: Reason): (line: string)
    ensures |line| > 7 && line[..7] == "ERROR: "
  {
    "ERROR: " + match (kind, reason)
      case (Spf, NotFetched) => "SPF record not fetched"
      case (Spf, NoneFound) => "no SPF record was found"
      case (Spf, MultipleFound) => "multiple SPF records found"
      case (Dkim, NotFetched) => "DKIM record not fetched"
      case (Dkim, NoneFound) => "no DKIM record was found"
      case (Dkim, MultipleFound) => "multiple DKIM records found on the same selector"
      case (Dmarc, NotFetched) => "DMARC record not fetched"
      case (Dmarc, NoneFound) => "no DMARC record was found"
      case (Dmarc, MultipleFound) => "multiple DKIM records found on the same selector"
  }

  /** Within one kind, the three reasons have three different lines (for DMARC
      only the "not fetched" line is ever printed). */
  lemma DiagnosticsDistinct(kind: Kind, r1: Reason, r2: Reason)
    requires r1 != r2
    ensures Diagnostic(kind, r1) != Diagnostic(kind, r2)
  {
  }

  /** The DMARC policy lives at `_dmarc.` under the target. */
  function DmarcName(target: string): (name: string)
    ensures |name| == |target| + 7 && name[..7] == "_dmarc." && name[7..] == target
  {
    "_dmarc." + target
  }

  class Auditor {
    var target: string
    var selector: SelectorArg
    var dkimType: string
    // Cached records; nothing in the class sets them to anything but None.
    var spfRecord: Option<seq<string>>
    var dkimRecords: Option<seq<string>>
    var dmarcRecord: Option<seq<string>>

    /** The three caches are empty, so every validator stops at its first check. */
    predicate CachesCleared()
      reads this
    {
      spfRecord == None && dkimRecords == None && dmarcRecord == None
    }

    constructor (auditTarget: string, dkimSelector: SelectorArg := SelectorText(""),
                 dkimRecordType: string := "TXT")
      ensures target == auditTarget && selector == dkimSelector && dkimType == dkimRecordType
      ensures CachesCleared()
    {
      target := auditTarget;
      selector := dkimSelector;
      dkimType := dkimRecordType;
      spfRecord, dkimRecords, dmarcRecord := None, None, None;
    }

    /** Swaps to a new target; records cached for the old one are dropped. */
    method ChangeTarget(newTarget: string, newDkimSelector: SelectorArg := SelectorText(""),
                        newDkimType: string := "TXT")
      modifies this
      ensures target == newTarget && selector == newDkimSelector && dkimType == newDkimType
      ensures CachesCleared()
      ensures forall c :: ValidateSpf(c) == ReturnedFalse(NotFetched)
      ensures forall c :: ValidateDkim(c) == ReturnedFalse(NotFetched)
      ensures ValidateDmarc() == ReturnedFalse(NotFetched)
    {
      spfRecord := None;
      dkimRecords := None;
      dmarcRecord := None;
      target := newTarget;
      selector := newDkimSelector;
      dkimType := newDkimType;
    }

    /** Record-count check for SPF: False when nothing was fetched, else when no
        candidate, else when two or more; with exactly one the source goes on to
        `re.split` the list, which raises TypeError. */
    function ValidateSpf(spfCandidates: seq<string>): (v: Outcome)
      reads this
      ensures v.ReturnedFalse? <==> spfRecord == None || |spfCandidates| != 1
      ensures v == ReturnedFalse(NotFetched) <==> spfRecord == None
      ensures v == ReturnedFalse(NoneFound) <==> spfRecord != None && spfCandidates == []
      ensures v == ReturnedFalse(MultipleFound) <==> spfRecord != None && |spfCandidates| >= 2
      ensures spfRecord != None && |spfCandidates| == 1 ==> v == Raised(TypeError)
    {
      if spfRecord == None then ReturnedFalse(NotFetched)
      else if |spfCandidates| == 0 then ReturnedFalse(NoneFound)
      else if |spfCandidates| >= 2 then ReturnedFalse(MultipleFound)
      else Raised(TypeError)
    }

    /** Record-count check for DKIM, with the same order of checks as SPF. */
    function ValidateDkim(dkimCandidates: seq<string>): (v: Outcome)
      reads this
      ensures v.ReturnedFalse? <==> dkimRecords == None || |dkimCandidates| != 1
      ensures v == ReturnedFalse(NotFetched) <==> dkimRecords == None
      ensures v == ReturnedFalse(NoneFound) <==> dkimRecords != None && dkimCandidates == []
      ensures v == ReturnedFalse(MultipleFound) <==> dkimRecords != None && |dkimCandidates| >= 2
      ensures dkimRecords != None && |dkimCandidates| == 1 ==> v == Raised(TypeError)
    {
      if dkimRecords == None then ReturnedFalse(NotFetched)
      else if |dkimCandidates| == 0 then ReturnedFalse(NoneFound)
      else if |dkimCandidates| >= 2 then ReturnedFalse(MultipleFound)
      else Raised(TypeError)
    }

    /** DMARC check: False when nothing was fetched; otherwise the next line
        reads the local `dmarc_record` before it is assigned. */
    function ValidateDmarc(): (v: Outcome)
      reads this
      ensures v == ReturnedFalse(NotFetched) <==> dmarcRecord == None
      ensures v != ReturnedFalse(NotFetched) ==> v == Raised(UnboundLocalError)
    {
      if dmarcRecord == None then ReturnedFalse(NotFetched)
      else Raised(UnboundLocalError)
    }

    /** TXT query for the target itself; keeps every answer quoting a `v=spf1` record. */
    method FetchSpf(resolve: Query -> Resolution) returns (issued: seq<Query>, result: FetchOutcome)
      ensures issued == [Query(target, "TXT")]
      ensures resolve(issued[0]).DnsFailure? ==> result == RaisedDnsError
      ensures resolve(issued[0]).Answers? ==> result == Fetched(Filtered(SpfTag, resolve(issued[0]).texts))
    {
      var query := Query(target, "TXT");
      issued := [query];
      match resolve(query)
      case DnsFailure =>
        result := RaisedDnsError;
      case Answers(texts) =>
        var records := CollectVersioned(SpfTag, texts);
        result := Fetched(records);
    }

    /** With an empty selector nothing is queried and nothing found; otherwise
        the target itself is queried with the DKIM record type (the selector
        does not enter the name) and every `v=DKIM1` answer is kept. */
    method FetchDkim(resolve: Query -> Resolution) returns (issued: seq<Query>, result: FetchOutcome)
      ensures selector.Len() == 0 ==> issued == [] && result == Fetched([])
      ensures selector.Len() != 0 ==> issued == [Query(target, dkimType)]
      ensures selector.Len() != 0 && resolve(Query(target, dkimType)).DnsFailure? ==> result == RaisedDnsError
      ensures selector.Len() != 0 && resolve(Query(target, dkimType)).Answers? ==>
                result == Fetched(Filtered(DkimTag, resolve(Query(target, dkimType)).texts))
    {
      if selector.Len() == 0 {
        return [], Fetched([]);
      }
      var query := Query(target, dkimType);
      issued := [query];
      match resolve(query)
      case DnsFailure =>
        result := RaisedDnsError;
      case Answers(texts) =>
        var records := CollectVersioned(DkimTag, texts);
        result := Fetched(records);
    }

    /** TXT query for `_dmarc.<target>`; keeps every answer quoting a `v=DMARC1` record. */
    method FetchDmarc(resolve: Query -> Resolution) returns (issued: seq<Query>, result: FetchOutcome)
      ensures issued == [Query(DmarcName(target), "TXT")]
      ensures resolve(issued[0]).DnsFailure? ==> result == RaisedDnsError
      ensures resolve(issued[0]).Answers? ==> result == Fetched(Filtered(DmarcTag, resolve(issued[0]).texts))
    {
      var query := Query(DmarcName(target), "TXT");
      issued := [query];
      match resolve(query)
      case DnsFailure =>
        result := RaisedDnsError;
      case Answers(texts) =>
        var records := CollectVersioned(DmarcTag, texts);
        result := Fetched(records);
    }
  }

  /** An auditor built as daud.py builds it from the normalised prompt answers,
      then asked to fetch DKIM. The selector list is never empty, so the DKIM
      query would be issued even for an empty selector answer. (daud.py itself
      goes on to `audit_dns_records`, which fails before any fetch.) */
  method DkimFromPrompts(domain: string, selectorsString: string, dkimType: string,
                         resolve: Query -> Resolution)
    returns (issued: seq<Query>, result: FetchOutcome)
    ensures issued == [Query(domain, SelectorInput.UpperAscii(dkimType))]
  {
    var selectors := SelectorInput.NormaliseSelectors(selectorsString);
    var auditor := new Auditor(domain, SelectorList(selectors), SelectorInput.UpperAscii(dkimType));
    issued, result := auditor.FetchDkim(resolve);
  }
}
