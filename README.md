# DAud auditor core in Dafny

DAud checks a mail domain's SPF, DKIM and DMARC DNS records. Its core is the
`dauditor` class in `domain_auditor.py`. This model covers four things:

- how the class picks version-tagged records out of DNS answers;
- which DNS queries it issues;
- the record-count checks its validators make before they stop;
- how its fields change when it is built and when it is retargeted.

It also covers how `daud.py` normalises the DKIM input typed at its prompts
before it builds an auditor.

Modules:

- `Optional` (option.dfy): Python's `None` or a value.
- `AnswerFilter` (answer_filter.dfy): the record filter that the three fetchers
  share. `ExtractVersioned` is the search `^"(<tag>.+)"$` with the tags
  `v=spf1`, `v=DKIM1` and `v=DMARC1`. The match is case-sensitive and needs
  at least one character after the tag, but not a space. No line feed is
  allowed between the quotes. Inner `" "` segment separators are kept. As
  Python's `$` allows, the answer may end in one line feed. `PatternMatch`
  gives the same pattern as a grammar, and `ExtractMatchesPattern` proves the
  two agree. `KeepMatches` keeps the group of every accepted answer, in order.
  `Filtered` applies it with one tag and gives a fetch's result.
  `CollectVersioned` is the fetchers' loop, proved to compute it.
- `SelectorInput` (selectors.dfy): `selectors_string.replace(", ", ",").split(",")`
  and `dkim_type.upper()` from `daud.py`. Each has round-trip lemmas: split
  then join, join then split, and space-then-replace.
- `DomainAuditor` (domain_auditor.dfy): the `Auditor` class, with the fields
  `target`, `selector`, `dkimType` and the three caches `spfRecord`,
  `dkimRecords` and `dmarcRecord`. Each fetch method takes the resolver as a
  function `Query -> Resolution`. It returns the queries it issued and either
  the filtered records or the DNS exception, which the source lets
  propagate. Each validator returns an `Outcome`: either `ReturnedFalse` with
  the reason printed to the console, or the Python exception the call
  ends in.

How the code behaves, as modelled:

- The DKIM fetcher queries the target itself, with the DKIM record type. The
  selector is only checked for length 0; no `<selector>._domainkey.<target>`
  name is built.
- `daud.py` always builds the auditor with a non-empty selector list; an empty
  answer gives `[""]`. So an auditor built that way would issue the DKIM query
  whenever `fetch_dkim` is called (`DkimFromPrompts`). `daud.py` itself then
  calls `audit_dns_records`, which fails before any fetch.
- Only one space after each comma is removed (`DoubleSpaceKept`). Other
  whitespace around selector names stays.
- Multi-segment TXT answers are not re-joined. The `" "` between segments
  stays inside the record.
- Nothing in the class ever sets a cache field to anything but `None`. Every
  validator therefore stops at its first check unless a caller sets the field
  from outside.
- With exactly one candidate, `validate_spf` and `validate_dkim` pass the list
  to `re.split`, which raises `TypeError`. When `dmarc_record` is set,
  `validate_dmarc` reads the local `dmarc_record` before it is assigned, which
  raises `UnboundLocalError`.
- DNS errors are not caught by the fetchers and reach the caller.

## Model

| member | source | states |
|---|---|---|
| `AnswerFilter.BeforeFinalNewline` | domain_auditor.py:94 | `$` may match at the end or before one final line feed: one final line feed is dropped exactly when the answer ends in one, and nothing else is |
| `AnswerFilter.ExtractVersioned` | domain_auditor.py:93-96 | the search and `group(1)`: a kept group is the answer less its two quotes and at most one final line feed, and the answer starts with a quote (the full pattern is `ExtractMatchesPattern`) |
| `AnswerFilter.Filtered` | domain_auditor.py:91-97 | a fetch's result for one tag is never longer than the answer list |
| `AnswerFilter.ExtractMatchesPattern` | domain_auditor.py:93-96 | the extractor yields `g` exactly when the answer is `"g"` or `"g"` plus a line feed, where `g` is the tag, then at least one character, and no line feed |
| `AnswerFilter.ExtractedIsVersioned` | domain_auditor.py:94-96 | a kept group begins with the tag, is longer than it and spans no line |
| `AnswerFilter.KeepMatches` | domain_auditor.py:91-97 | a fetch never returns more records than there were answers |
| `AnswerFilter.FilteredAllVersioned` | domain_auditor.py:111-116 | every record a fetcher returns begins with its version tag (`v=spf1`, `v=DKIM1`, `v=DMARC1`) |
| `AnswerFilter.KeepMatchesAppend` | domain_auditor.py:91-97 | keeping distributes over concatenation of the answer list, so answer order is kept and nothing is merged |
| `AnswerFilter.KeepMatchesMembership` | domain_auditor.py:92-96 | a record is returned iff some answer's match yields it |
| `AnswerFilter.KeepMatchesAll` | domain_auditor.py:129-134 | one record per answer iff every answer matches, and then record i is answer i's group, duplicates kept |
| `AnswerFilter.KeepMatchesNone` | domain_auditor.py:82-97 | the empty list is returned iff no answer matches |
| `AnswerFilter.KeepOne` | domain_auditor.py:95-96 | one more answer appends its group, if it has one, at the end |
| `AnswerFilter.CollectVersioned` | domain_auditor.py:91-97 | the append loop over the answers computes exactly `Filtered` |
| `AnswerFilter.TagNeedsNoSpace` | domain_auditor.py:94 | `"v=spf10 -all"` is kept: no space is required after the tag |
| `AnswerFilter.TagIsCaseSensitive` | domain_auditor.py:131 | `V=SPF1` and `v=dmarc1` records are not kept |
| `AnswerFilter.BareTagRejected` | domain_auditor.py:113 | a record that is only the tag is not kept |
| `AnswerFilter.SegmentsKeepInnerQuotes` | domain_auditor.py:130-133 | a two-segment DMARC answer is kept whole with the inner `" "` |
| `AnswerFilter.NewlineHandling` | domain_auditor.py:94 | a line feed inside the quotes defeats the match; one line feed after the closing quote does not |
| `SelectorInput.ReplaceCommaSpace` | daud.py:41 | replacing never lengthens the text |
| `SelectorInput.ReplaceKeepsCommas` | daud.py:41 | replacing keeps the number of commas |
| `SelectorInput.ReplaceUndoesSpacing` | daud.py:41 | replacing undoes putting a space after every comma, for any text |
| `SelectorInput.ReplaceFixesIff` | daud.py:41 | the text is unchanged iff it holds no comma followed by a space |
| `SelectorInput.ReplaceShortens` | daud.py:41 | a text with a comma-space gets strictly shorter |
| `SelectorInput.ReplaceKeepsPlain` | daud.py:41 | a text without a comma-space is unchanged |
| `SelectorInput.ReplaceAtJunction` | daud.py:41 | a comma-space between two texts becomes a comma and the two sides are rewritten independently |
| `SelectorInput.SplitOnComma` | daud.py:41 | splitting always gives at least one piece |
| `SelectorInput.SplitCount` | daud.py:41 | there is one piece more than there are commas |
| `SelectorInput.SplitNoComma` | daud.py:41 | no piece holds a comma |
| `SelectorInput.JoinSplit` | daud.py:41 | joining the pieces with `","` gives back the split text |
| `SelectorInput.SplitJoin` | daud.py:41 | splitting a comma-joined non-empty list of comma-free pieces gives the list back |
| `SelectorInput.JoinAfterComma` | daud.py:41 | the split-join round trip extends over a leading comma |
| `SelectorInput.JoinAfterChar` | daud.py:41 | the split-join round trip extends over a leading non-comma character |
| `SelectorInput.JoinPrependChar` | daud.py:41 | a character put in front of the first piece lands in front of the joined text |
| `SelectorInput.SplitPieceThenComma` | daud.py:41 | a comma-free prefix followed by a comma splits off as the first piece |
| `SelectorInput.SplitPlain` | daud.py:41 | a comma-free text splits into itself alone |
| `SelectorInput.NormaliseSelectors` | daud.py:41 | the selector list has one more entry than the input has commas, no entry holds a comma, and joined with `","` it is the replaced input |
| `SelectorInput.EmptyInputIsOneEmptySelector` | daud.py:41 | an empty selector answer gives `[""]`, not the empty list |
| `SelectorInput.JunctionAtStart` | daud.py:41 | a leading comma-space becomes a comma |
| `SelectorInput.JunctionAfterPair` | daud.py:41 | the junction property extends over a leading comma-space |
| `SelectorInput.JunctionAfterChar` | daud.py:41 | the junction property extends over a leading character that starts no comma-space |
| `SelectorInput.SelectorPairSplits` | daud.py:41 | comma-free `a` and `b` typed as `a, b` give `[a, b]` |
| `SelectorInput.SpacedListSplits` | daud.py:41 | `"selector1, selector2"` gives the two bare names |
| `SelectorInput.DoubleSpaceKept` | daud.py:41 | `"a,  b"` gives `["a", " b"]`: one space only is removed |
| `SelectorInput.UpperAscii` | daud.py:42 | same length, no lower-case ASCII letter left, lower-case letters are raised by 32, every other character unchanged |
| `SelectorInput.UpperIdempotent` | daud.py:42 | upper-casing twice is upper-casing once |
| `SelectorInput.UpperTxt` | daud.py:42 | `txt`, `Txt` and `TXT` all give `TXT` |
| `DomainAuditor.Diagnostic` | domain_auditor.py:40-76 | every diagnostic a validator prints begins with `ERROR: ` (the two DMARC lines after "not fetched" are never reached) |
| `DomainAuditor.DiagnosticsDistinct` | domain_auditor.py:40-49 | within one kind, the three failure reasons print different lines |
| `DomainAuditor.DmarcName` | domain_auditor.py:126 | the DMARC name is `_dmarc.` followed by the target |
| `DomainAuditor.Auditor.constructor` | domain_auditor.py:20-27 | target, selector and DKIM type hold the arguments (defaults `''` and `"TXT"`), and the three caches are `None` |
| `DomainAuditor.Auditor.ChangeTarget` | domain_auditor.py:29-38 | the new target, selector and DKIM type are set (same defaults), the three caches are `None`, and every validator then reports "not fetched" |
| `DomainAuditor.Auditor.ValidateSpf` | domain_auditor.py:40-52 | False iff the cache is `None` or the candidates are not exactly one; the reason is "not fetched" first, then "none found" for 0, then "multiple" for 2 or more; one candidate raises `TypeError` |
| `DomainAuditor.Auditor.ValidateDkim` | domain_auditor.py:54-66 | the same order of checks and outcomes on the DKIM cache |
| `DomainAuditor.Auditor.ValidateDmarc` | domain_auditor.py:68-72 | "not fetched" iff the DMARC cache is `None`; otherwise `UnboundLocalError` |
| `DomainAuditor.Auditor.FetchSpf` | domain_auditor.py:82-97 | issues exactly `(target, TXT)`; a DNS error propagates; otherwise returns the `v=spf1` filter of the answers |
| `DomainAuditor.Auditor.FetchDkim` | domain_auditor.py:99-116 | a length-0 selector means no query and `[]`; otherwise issues exactly `(target, dkim_type)` and returns the `v=DKIM1` filter, or the DNS error |
| `DomainAuditor.Auditor.FetchDmarc` | domain_auditor.py:118-134 | issues exactly `("_dmarc." + target, TXT)`; a DNS error propagates; otherwise returns the `v=DMARC1` filter |
| `DomainAuditor.DkimFromPrompts` | daud.py:41-45 | an auditor built from the normalised prompt input would issue the DKIM query `(domain, upper(dkim_type))` when `fetch_dkim` is called (domain_auditor.py:107-109), even for an empty selector answer |

## Left out

- The dnspython resolver, its name-server and port settings, and the network calls (domain_auditor.py:10-19). The resolver is a function parameter here, and answer texts are given as strings; `to_text()` rendering is not modelled.
- The "exactly one record" grammar checks. The source has none: its `re.split` on the candidate list raises `TypeError` before anything is split. No SPF, DKIM or DMARC grammar is modelled.
- `audit_dns_records` and the module-level `main` of domain_auditor.py (136-182). They cannot run as written: the method has no `self` and uses undefined names. Nothing assigns the caches from fetch results either.
- The console output of the validators. It appears only as the `Reason` and its `Diagnostic` text.
- The lines of `validate_dmarc` after its first check (72-80). The call ends at line 72 with `UnboundLocalError`, so the later lines never run.
- The prompts, argparse set-up and result printing in daud.py, and all of main.py. This is console I/O around the modelled calls.
- The call `auditor.audit_dns_records()` at daud.py:46. The method is declared without `self`, so the call fails with `TypeError` before any fetch; the model stops at building the auditor and calling `fetch_dkim` directly.
- SelectorInput.UpperAscii: maps only ASCII a-z. `str.upper` also maps other Unicode letters, sometimes to longer text.
- Python's dynamic typing. Validators are modelled with a list of candidates, as the fetchers produce, and not with arbitrary values.
