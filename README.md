# eCourts scraping relay — verified model

The relay is an Express server. It walks a client through the eCourts district-court
search flow:

- state and district links from the portal's home page;
- the case-number search page of a district site, with its session id (`scid`), its `tok_*`
  form token and its court-complex dropdown;
- the case types of a court complex;
- the CAPTCHA image;
- the case search, either by case number or by litigant name;
- the case details of one CNR number (`cino`).

Each handler checks its required request fields and sends one HTTP call upstream. It then
scrapes the HTML that comes back with cheerio and answers with JSON.

This project models the deterministic layer inside those handlers. The HTTP answer and what
cheerio extracts from the page are given as inputs. Each handler returns the call it made
(none when validation failed) and the reply it sends. The modules are:

- `Text`: the JavaScript string primitives the handlers use: `trim` with its white-space
  set, ASCII `toLowerCase`, `split`, `includes`, `endsWith` and the UTF-16 `length`.
- `Js`: JSON values, truthiness, property reads that throw on `null`/`undefined`, and
  request fields that may be absent.
- `Cookies`: `getCookiesForHeader`, which builds the `Cookie` header from stored
  `Set-Cookie` lines.
- `DistrictUrls`: the trailing-`/` normalisation of a district link, its origin, and the
  search-page, ajax and CAPTCHA URLs built from it.
- `Collecting`: the filter-then-map of a cheerio `.each` loop that pushes kept elements,
  with its specification (order kept, kept iff the filter holds).
- `Dropdowns`: the court-complex and case-type option filters.
- `Links`: the state and district link filters of the older server.
- `Forms`: the `URLSearchParams` object as a class whose `Append` grows an ordered pair list.
- `Requests`: the required-field checks and the form bodies of every POST.
- `Envelopes`: the `{ success, data }` envelope of the site's ajax endpoint, and the three-way
  classification of it.
- `CaseRows`: the result rows of both searches, including the `<br>` → `" | "` and
  white-space clean-up of the parties cell.
- `HeaderKeys`: the table-header → property-key normalisation.
- `CaseDetails`: the case-details object the CINO handler assembles with keyed assignments,
  where the last write to a key wins.
- `Handlers`: the six routes with the network taken out.

Behaviour that follows the code rather than the prose description of the system:

- The court-complex filter keeps an `All` entry (value `"all"`). Only the `select court
  complex` placeholder, empty entries and value `"0"` are dropped.
- The CINO handler never looks at `success`. It scrapes whatever `data` holds, even when the
  site refused.
- The litigant search and the CINO lookup of `server.js` use the district base URL exactly as
  sent. They do not add a `/`, and their origin is the base itself.
- The litigant search answers 500, not 400, for `success: false`.
- The acts, FIR and history tables are found by their position after the case box, not by
  their heading text. Either way that is a selector, and the tables are inputs here.

## Model

| member | source | states |
|---|---|---|
| Text.Trim | server.js:56 | `String.prototype.trim`: the result has no white space at either end |
| Text.TrimIsInfix | server.js:56 | the trimmed text is a contiguous part of the input, with only white space cut on either side |
| Text.TrimIdempotent | routes/casenumber.js:94 | trimming twice is trimming once |
| Text.Split | routes/casenumber.js:12 | `split(';')` yields at least one piece and no piece contains the separator |
| Text.SplitPrefix | routes/casenumber.js:12 | a piece without the separator, then the separator, splits off as the first element |
| Text.Utf16Length | server.js:109 | the UTF-16 length of a string lies between its code-point count and twice it |
| Text.AsciiLower | server.js:406 | `toLowerCase` on ASCII: same length, letters lowered, alphanumeric class kept per character |
| Cookies.CookiePair | routes/casenumber.js:12 | the text of one `Set-Cookie` line before its first `;`, trimmed: holds no `;` and no white space at either end |
| Cookies.PairsOf | routes/casenumber.js:12 | one pair per stored line, in the same order |
| Cookies.CookieHeader | routes/casenumber.js:10-19 | a string passes through unchanged; any other non-array gives `""`; an empty array gives `""`; one line gives its pair |
| Cookies.HeaderRoundTrip | routes/casenumber.js:11-12 | splitting the built header on `;` and trimming gives back exactly one pair per stored line, in order |
| Cookies.ReadBack | routes/casenumber.js:12 | a `"; "`-join of `;`-free trimmed pairs splits back into the same pairs |
| Cookies.SplitJoined | routes/casenumber.js:12 | the pieces of a joined header are the pairs, each after the first carrying its one leading space |
| Cookies.FormattingIdempotent | routes/casenumber.js:12 | formatting already formatted pairs gives the same header |
| DistrictUrls.NormalizeBase | routes/casenumber.js:73 | the base ends in `/`, extends the link by at most one character, and equals a link already ending in `/` |
| DistrictUrls.NormalizeIdempotent | routes/casenumber.js:147 | normalising twice is normalising once |
| DistrictUrls.Origin | routes/casenumber.js:149 | the origin plus `/` is the base |
| DistrictUrls.OriginOfLink | routes/casenumber.js:290-292 | the origin of a link without a trailing `/` is the link itself |
| DistrictUrls.AjaxRefererIsSearchPage | routes/casenumber.js:50 | the ajax `Referer` built from the origin is the search page of the base |
| DistrictUrls.DerivedUrls | routes/casenumber.js:74 | search page, ajax and CAPTCHA URLs are the base followed by their fixed path, and the CAPTCHA URL ends in the session id |
| DistrictUrls.PartySearchAjaxUrlAgrees | server.js:253 | the older server's ajax URL equals the normalised one exactly when the base does not end in `/` |
| Collecting.CollectSnoc | routes/casenumber.js:96 | one more element appends its image exactly when it is kept |
| Collecting.CollectAppend | server.js:54-59 | filtering a concatenation concatenates the filtered parts |
| Collecting.CollectIsKeptInOrder | server.js:54-59 | the result is the images of the kept elements, in increasing input position |
| Collecting.CollectMembers | routes/casenumber.js:92-98 | a value is in the result iff some kept input element maps to it |
| Dropdowns.IsChoice | routes/casenumber.js:95 | the four-part option test; stated by ChoiceIsOffered, ChoiceKeptIff and ExampleChoices |
| Dropdowns.ChoiceIsOffered | routes/casenumber.js:95 | every kept option has a non-empty value other than `"0"` and a non-empty trimmed name that is not the placeholder |
| Dropdowns.ListChoices | routes/casenumber.js:91-98 | the loop returns exactly the filtered, trimmed options in page order, each one offerable |
| Dropdowns.ChoiceKeptIff | routes/casenumber.js:177-183 | a choice is listed iff some option passes all four tests and trims to it |
| Dropdowns.AllEntryIsKept | routes/casenumber.js:95 | of placeholder, `All` and a padded court, the placeholder is dropped, `All` is kept and the padded name is trimmed |
| Dropdowns.DropFirstOfThree | routes/casenumber.js:95-96 | a dropped first option leaves the two kept ones in order |
| Dropdowns.ExampleChoices | routes/casenumber.js:95 | the placeholder fails the test; `All` and the padded court pass it |
| Links.IsStateAnchor | server.js:57 | the state-link test; stated by StateListedIff and StatesWellFormed |
| Links.IsDistrictAnchor | server.js:109 | the district-link test; stated by DistrictListedIff and DistrictsWellFormed |
| Links.ListStates | server.js:53-59 | the loop returns exactly the filtered state links, in page order, each under the portal home and with a trimmed non-empty name without `More` |
| Links.StateListedIff | server.js:57-58 | a state link is listed iff some anchor has a non-empty href and a non-empty trimmed name without `More`, and the link is the home prefix plus that href |
| Links.StatesWellFormed | server.js:57-58 | every listed state has a non-empty trimmed name without `More` and a link strictly longer than the home prefix |
| Links.ListDistricts | server.js:102-112 | the loop returns exactly the filtered district links, in page order, each on a `.dcourts.gov.in` host with a name longer than 2 |
| Links.DistrictListedIff | server.js:109-110 | a district is listed iff some anchor's href contains `.dcourts.gov.in` and its trimmed name has more than two UTF-16 units |
| Links.DistrictsWellFormed | server.js:109-110 | every listed district's link contains the host and its name is trimmed and longer than 2 |
| Links.AstralNameIsLongEnough | server.js:109 | a name of two astral characters passes the length test, since `length` counts UTF-16 units |
| Forms.FormData.constructor | routes/casenumber.js:151 | a new form holds no pairs |
| Forms.FormData.Append | routes/casenumber.js:152 | `append` adds exactly one pair at the end and keeps the others |
| Forms.ValuesOfAppend | routes/casenumber.js:152-157 | the values under a name of two concatenated bodies are those of each body, in order |
| Forms.AppendGetAll | routes/casenumber.js:156 | appending a pair adds its value under its own name and changes no other name |
| Forms.ValuesOfAbsent | routes/casenumber.js:294-305 | a name no pair uses has no values |
| Forms.SentOnce | routes/casenumber.js:156 | a pair whose name appears nowhere else is sent exactly once |
| Forms.DistinctSentOnce | server.js:361-364 | in a body with distinct names, every name carries exactly its own value |
| Forms.DistinctLacks | server.js:361-364 | in a body with distinct names, no pair before or after a pair shares its name |
| Requests.CaseStatusNotRequired | server.js:249 | the litigant search's completeness does not depend on `caseStatus` |
| Requests.CaseTypesBody | routes/casenumber.js:151-157 | six pairs, `action=get_case_types` first, with the token pair among them |
| Requests.CaseDataBody | routes/casenumber.js:294-305 | eleven pairs, `action=get_cases` last, with the token pair among them |
| Requests.PartySearchBody | server.js:256-267 | eleven pairs, `action=get_parties` last, with the token pair, and `case_status=undefined` when the field is absent |
| Requests.CinoBody | server.js:361-364 | three pairs: the CNR number, then `action=get_cnr_details` |
| Requests.BuildCaseTypesForm | routes/casenumber.js:151-157 | the appended form holds exactly the case-types body |
| Requests.BuildCaseDataForm | routes/casenumber.js:294-305 | the appended form holds exactly the case-data body |
| Requests.BuildPartySearchForm | server.js:256-267 | the appended form holds exactly the litigant-search body |
| Requests.BuildCinoForm | server.js:361-364 | the appended form holds exactly the CINO body |
| Requests.CinoSentOnce | server.js:362 | the CNR number is sent once, and every pair of the body is the only one under its name |
| Requests.CaseTypesSentOnce | routes/casenumber.js:156 | when the token name is not one of the fixed names, every name of the body carries exactly one value |
| Requests.CaseDataSentOnce | routes/casenumber.js:301 | as above for the case-data body |
| Requests.PartySearchSentOnce | server.js:263 | as above for the litigant-search body |
| Requests.TokenNamedAction | routes/casenumber.js:152-156 | a token named `action` sends a second `action` value after `get_case_types` |
| Envelopes.Classify | routes/casenumber.js:322-369 | parsed iff `success` is truthy and `data` is a string; refused iff `success === false`; throws iff the body is `null` or `undefined`; otherwise unexpected |
| Envelopes.TruthySuccessIsEnough | routes/casenumber.js:322 | `success` of `1` or `"yes"` parses; `success: true` with an array `data` does not |
| Envelopes.BareValueIsUnexpected | routes/casenumber.js:362 | a bare `0` or a plain text body is unexpected and does not throw |
| Envelopes.Outcome | routes/casenumber.js:311-386 | a call that threw and an unreadable body both end in the `catch` block; an answered call is classified |
| CaseRows.ReplaceBr | routes/casenumber.js:340 | the global, case-blind `<br>` replacement written out as a left-to-right scan, each tag becoming a bar between two spaces; stated by ReplaceBrPlain, ReplaceBrTag, BrLenSound and BrLenComplete |
| CaseRows.BrLenSound | server.js:308 | a non-zero length is always that of a `<br\s*\/?>` tag |
| CaseRows.BrLenComplete | routes/casenumber.js:340 | every `<br\s*\/?>` tag, in any case, is recognised with its full length |
| CaseRows.ReplaceBrPlain | routes/casenumber.js:340 | text without `<` passes through the `<br>` replacement unchanged |
| CaseRows.ReplaceBrTag | server.js:308 | a leading `<br>` tag becomes a bar between two spaces |
| CaseRows.ReplaceBrExamples | server.js:308 | `A<br>B`, `A<br/>B` and `A<BR />B` all become A, space, bar, space, B |
| CaseRows.ReplaceBrExample | routes/casenumber.js:340 | every tag form between two letters becomes a bar between two spaces |
| CaseRows.Squeeze | server.js:308 | `replace(/\s{2,}/g, ' ')`: never longer, empty iff the input is, and starts with white space iff the input does; SqueezeRun, SqueezeLoneWs and SqueezeVisibleCons pin it character by character |
| CaseRows.SqueezeRun | server.js:308 | a whole run of two or more white-space characters becomes exactly one space |
| CaseRows.SqueezeLoneWs | server.js:308 | a lone white-space character is kept as it is |
| CaseRows.SqueezeVisibleCons | server.js:308 | a character that is not white space is copied |
| CaseRows.SqueezeSingleSpaced | server.js:308 | the result never has two white-space characters in a row |
| CaseRows.SqueezeOfSingleSpaced | server.js:308 | a text without two white-space characters in a row is unchanged |
| CaseRows.SqueezeIdempotent | server.js:308 | squeezing twice is squeezing once |
| CaseRows.VisibleAppend | server.js:308 | visible characters of a concatenation concatenate |
| CaseRows.VisibleOfBlank | server.js:308 | an all-white-space text shows nothing |
| CaseRows.SqueezeKeepsVisible | server.js:308 | squeezing keeps every non-white-space character, in order |
| CaseRows.TrimKeepsVisible | server.js:308 | trimming keeps every non-white-space character and keeps single spacing |
| CaseRows.TrimVisible | server.js:308 | cutting white space from both ends keeps the visible characters |
| CaseRows.InfixSingleSpaced | server.js:308 | a part of a single-spaced text is single-spaced |
| CaseRows.PartiesSummary | server.js:307-309 | the litigant search's parties text; stated by PartiesSummaryClean and PartiesSummaryExample |
| CaseRows.PartiesLine | routes/casenumber.js:340 | the case-number search's parties text, missing when the cell is; stated by PartiesAgree and CaseNumberRecordClean |
| CaseRows.PartiesSummaryClean | server.js:307-309 | the litigant search's parties text is trimmed, single-spaced, and shows exactly the visible characters of the cell after the `<br>` replacement (`""` for a missing cell) |
| CaseRows.SqueezeTwoRuns | server.js:308 | three visible characters separated by two white-space runs come out separated by single spaces |
| CaseRows.ReplaceOneTag | server.js:308 | one `<br>` tag between two texts without `<` becomes a bar between two spaces and the texts are copied |
| CaseRows.PartiesSummaryExample | server.js:307-309 | a cell `A`, two spaces, `<br>`, a newline, a space, `B` gives `A`, space, bar, space, `B` |
| CaseRows.PartiesAgree | routes/casenumber.js:340 | on a cell that is already single-spaced after the `<br>` replacement, the case-number form (no squeeze) gives the same text |
| CaseRows.CaseNumberRecordOf | routes/casenumber.js:335-345 | the record of one case-number row, cells 1 to 5; stated by CaseNumberRecordClean |
| CaseRows.PartySearchRecordOf | server.js:302-323 | the record of one litigant-search row, cells 1 to 4; stated by PartySearchRecordClean |
| CaseRows.CaseNumberRecordClean | routes/casenumber.js:336-345 | every case-number record has trimmed serial, case and filing texts, a trimmed parties text, and no parties text for a row with fewer than four cells |
| CaseRows.PartySearchRecordClean | server.js:302-323 | every litigant-search record has trimmed fields, a single-spaced parties text, and `""` for a row with fewer than three cells |
| CaseRows.ParseCaseNumberRows | routes/casenumber.js:334-347 | one record per table row, in row order, each well formed |
| CaseRows.ParsePartySearchRows | server.js:301-324 | one record per table row, in row order, each well formed |
| HeaderKeys.Collapse | server.js:406 | `replace(/[^a-zA-Z0-9]+/g, '_')`; stated by CollapseUnderscored, CollapseKeepsAlnums, CollapseWord and CollapseGap |
| HeaderKeys.StripEdges | server.js:406 | the edge replacement: one `_` off the start and one off the end; stated by StripCanonical and StripKeepsAlnums |
| HeaderKeys.Key | server.js:406 | lower, collapse, strip; stated by KeyIsCanonical, KeyIdempotent, KeyKeepsAlnums and KeyEmptyIff |
| HeaderKeys.CollapseFirst | server.js:406 | the collapsed text starts with `_` iff the header starts with a non-alphanumeric |
| HeaderKeys.CollapseLast | server.js:406 | the collapsed text ends with `_` iff the header ends with a non-alphanumeric |
| HeaderKeys.CollapseUnderscored | server.js:406 | collapsing a lowered header gives only `[a-z0-9_]` with no `__` |
| HeaderKeys.UnderscoredCons | server.js:406 | a key character in front of such a text keeps it so, unless it makes a `__` |
| HeaderKeys.StripCanonical | server.js:406 | stripping one `_` from each end of such a text leaves no `_` at either end |
| HeaderKeys.KeyIsCanonical | server.js:406 | every key has only `[a-z0-9_]`, never `__`, and no `_` at either end |
| HeaderKeys.CollapseOfUnderscored | server.js:406 | collapsing changes nothing in a text already of that form |
| HeaderKeys.KeyOfCanonical | server.js:406 | a key-shaped text is its own key |
| HeaderKeys.KeyIdempotent | server.js:406 | normalising a key again gives the same key |
| HeaderKeys.AlnumsAppend | server.js:406 | alphanumerics of a concatenation concatenate |
| HeaderKeys.CollapseKeepsAlnums | server.js:406 | collapsing keeps every alphanumeric character, in order |
| HeaderKeys.KeyKeepsAlnums | server.js:406 | the key holds exactly the lowered header's alphanumerics, in order |
| HeaderKeys.StripKeepsAlnums | server.js:406 | the edge stripping removes no alphanumeric |
| HeaderKeys.DropLastUnderscore | server.js:406 | dropping a final `_` removes no alphanumeric |
| HeaderKeys.AlnumsEmpty | server.js:406 | a text has no alphanumerics iff none of its characters is one |
| HeaderKeys.KeyEmptyIff | server.js:406 | the key is empty iff the header has no ASCII letter or digit |
| HeaderKeys.CollapseWord | server.js:406 | an alphanumeric word passes through the collapse unchanged |
| HeaderKeys.CollapseGap | server.js:406 | a run of non-alphanumerics before a word becomes one `_` |
| HeaderKeys.TwoWordsKey | server.js:406 | two lower-case words separated by punctuation or spaces give `word1_word2` |
| HeaderKeys.CollapseTwoWords | server.js:406 | the collapse of two words with a gap and a tail |
| HeaderKeys.FilingNumberKey | server.js:406 | `"Filing   Number"` gives `filing_number` |
| HeaderKeys.KeepEdges | server.js:406 | a text without an edge `_` is not stripped |
| HeaderKeys.FilingNumberWords | server.js:406 | `filing   number` collapses to `filing_number` |
| HeaderKeys.CnrNoKey | server.js:406 | `"CNR No."` gives `cnr_no` |
| HeaderKeys.CnrNoWords | server.js:406 | `cnr no.` collapses to `cnr_no_`, whose final `_` the strip removes |
| HeaderKeys.BreaksToSpace | server.js:416 | `replace(/[\t\r\n]+/g, ' ')` leaves no tab, carriage return or newline |
| HeaderKeys.BreaksToSpaceEnds | server.js:416 | the replacement keeps the first and last characters when they are not breaks |
| HeaderKeys.BreaksToSpaceTail | server.js:416 | the replacement keeps a last character that is not a break |
| HeaderKeys.SecondTrimIsRedundant | server.js:416 | the second `trim` of a status header never changes it |
| CaseDetails.Apply | server.js:405-408 | the object after keyed assignments in order; stated by ApplyLastWrite, ApplyUntouched, ApplyKeys and ApplyNeverErases |
| CaseDetails.Assign | server.js:405-408 | the keyed assignments in order give the object the writes define |
| CaseDetails.ApplySnoc | server.js:407 | one more assignment updates exactly its own key |
| CaseDetails.ApplyLastWrite | server.js:405-408 | a key holds the value of its last write |
| CaseDetails.ApplyUntouched | server.js:405-408 | a key nobody writes keeps its value, or stays absent |
| CaseDetails.ApplyKeys | server.js:477-480 | the keys after the writes are the keys before plus the keys written |
| CaseDetails.ApplyNeverErases | server.js:423-428 | writes of non-empty texts lose no key, and each key keeps its value or gets a non-empty text |
| CaseDetails.FillSummary | server.js:405-408 | the first table's loop gives the object its writes define |
| CaseDetails.SummaryColumn | server.js:405-408 | each header's key holds its own column's trimmed value unless a later header has the same key; a header past the last value sets `undefined` |
| CaseDetails.StatusWritesNonEmpty | server.js:425-426 | the second table writes only non-empty texts |
| CaseDetails.FillStatus | server.js:423-428 | the second table's loop gives the object its conditional writes define |
| CaseDetails.StatusStep | server.js:425-427 | one more column assigns its key iff its value is non-empty |
| CaseDetails.StatusNeverErases | server.js:423-428 | the second table loses no key of the first, and any changed key holds a non-empty text |
| CaseDetails.BlankStatusChangesNothing | server.js:425 | with no non-empty value, the second table writes nothing |
| CaseDetails.FillColumns | server.js:475-481 | the acts loop gives the object its writes define, or an empty one |
| CaseDetails.ColumnsKeys | server.js:496-502 | on a length mismatch the object is empty; otherwise its keys are exactly the headers' keys |
| CaseDetails.ColumnValue | server.js:477-480 | each header's key holds its own column's value unless a later header has the same key |
| CaseDetails.HistoryOf | server.js:513-522 | one entry per history row when every row fits, and failure otherwise; stated by HistoryCell, HistoryMisfit and ListHistory |
| CaseDetails.FillRow | server.js:516-519 | the cell loop fails iff the row has more cells than headers, and otherwise gives the row's object |
| CaseDetails.ListHistory | server.js:514-521 | the row loop gives exactly the history entries, or fails |
| CaseDetails.HistoryStep | server.js:520 | a filled row extends the entries built so far by its object |
| CaseDetails.HistoryMisfit | server.js:517 | a row with more cells than headers makes the history fail |
| CaseDetails.HistoryOfRows | server.js:513-522 | entries built row by row for fitting rows are the history |
| CaseDetails.HistoryCell | server.js:517-518 | each entry holds every cell under its column's key, the last cell under a repeated key winning |
| CaseDetails.PetitionerOf | server.js:436-443 | a petitioner's name is trimmed, and it has an advocate iff the pattern matched |
| CaseDetails.RespondentOf | server.js:452-458 | a respondent has an advocate iff the optional group captured a non-empty text |
| CaseDetails.ListPetitioners | server.js:432-445 | one party per list item, in order |
| CaseDetails.ListRespondents | server.js:448-461 | one party per list item, in order |
| CaseDetails.CaseDetailsOf | server.js:391-523 | the whole case-details object; stated by ReservedKeysWin, OtherKeysFromTables and BuildCaseDetails |
| CaseDetails.BuildCaseDetails | server.js:391-523 | the handler's assignments give exactly the case-details object, or fail on a misfit history row |
| CaseDetails.ReservedKeysWin | server.js:445-522 | failure iff a history row has more cells than headers; otherwise the parties are always there, the acts, FIR and history whenever their table is, each replacing a header key of the same name |
| CaseDetails.OtherKeysFromTables | server.js:394-429 | every other key comes from the two summary tables and nowhere else |
| CaseDetails.NoPrototypeKey | server.js:407 | no header key is `__proto__` |
| Handlers.CourtDetailsRoute | routes/casenumber.js:63-131 | no call iff the link is missing (400); a text page gives the session id, token and filtered complexes (`null` for missing ones) and the cookies; any other answer gives 500 |
| Handlers.CaseTypesRoute | routes/casenumber.js:136-207 | no call iff a field is missing (400); parsed gives the filtered case types; refused or unexpected gives 400 with the envelope; a throw gives 500 |
| Handlers.CaptchaRoute | routes/casenumber.js:212-271 | no call iff a field is missing (400); otherwise a GET of the CAPTCHA URL of the normalised base and the session id, with the formatted `Cookie` header and the search page as `Referer`; 500 iff the call threw, and otherwise the image with the `set-cookie` lines or `[]` |
| Handlers.CaseDataRoute | routes/casenumber.js:276-388 | no call iff a field is missing; parsed gives one record per row; refused gives the site's `data`; unexpected gives the raw envelope; status 400 iff fields are missing or the site refused |
| Handlers.PartySearchRoute | server.js:234-346 | no call iff one of the nine fields is missing; parsed gives one record per row; refused or unexpected gives 500 with the envelope; a throw gives 500 |
| Handlers.CaseDetailsRoute | server.js:351-536 | no call iff a field is missing; 500 when the call threw, when `data` cannot be read, when it is `null` or `undefined` (which `cheerio.load` refuses) or when a history row does not fit; otherwise the scraped object |
| Handlers.CinoIgnoresSuccess | server.js:388-391 | an envelope with `success: false` and a text `data` still has that text read and scraped into a case-details object |
| Handlers.SessionRefersToSearchPage | routes/casenumber.js:222-234 | the CAPTCHA is fetched with the step-1 search page as `Referer` and ends in the session id, as the ajax `Referer` does |
| Handlers.StepsShareEndpoint | routes/casenumber.js:147-149 | steps 2 and 4 for the same district post to the same URL with the same origin and cookies |

## Left out

- HTTP (axios), Express routing and middleware, CORS and `console` logging are not modelled. The upstream answer is an input of each route.
- Cheerio's HTML parsing and CSS selectors are not modelled. What each selector finds (option elements, anchors, table cells, list items) is an input.
- `URLSearchParams` percent-encoding is not modelled. A form body is its ordered pair list.
- The `/api/states` and `/api/districts` routes themselves are not modelled. Only their link filters (`server.js:54-59`, `105-112`) are.
- The older court-details route (`server.js:124-187`) is not modelled, because its origin comes from `new URL(...)`, which is WHATWG URL parsing.
- The older CAPTCHA route (`server.js:189-231`) is not modelled.
- The CAPTCHA image bytes and their base64 encoding are not modelled. The reply records only which branch was taken.
- The petitioner and respondent regular expressions (`server.js:435`, `451`) are not modelled. Matching them needs a backtracking engine with lazy quantifiers, so each list item carries what the groups captured as an input.
- The `parseInt` pagination fields `totalCases` and `nextPage` (`server.js:330-331`) are not modelled. They depend on NaN handling and its `null` JSON form.
- `getCookiesFromRequest` (`server.js:17-25`) is not modelled, because it is used only by the states route.
- Text.AsciiLower: `toLowerCase` is modelled on ASCII letters only. Keys of headers with non-ASCII letters that lower to ASCII (the Kelvin sign, dotted capital I) are not captured.
- JSON numbers are modelled as integers, with no fractions and no NaN.
- A request field that is present but is not a string (a number such as `regYear: 2024`, an object) is not represented: a field is absent, `null` or a string. The model therefore does not capture that such a number is sent as its decimal text, nor that a truthy non-string `districtLink` or `districtBaseUrl` throws at `.endsWith` outside the `try` block (routes/casenumber.js:73, 147, 222, 290), so the route sends no reply of its own.
- A cookie array is a list of strings. An array holding a non-string is not represented; its `.split` would throw, outside the `try` block in the case-data route (routes/casenumber.js:308).
- What `cheerio.load` makes of a `data` that is neither a string nor `null`/`undefined` (a number, an object) is not modelled. The CINO route scrapes it like any other document, through the page input.
- `JSON.stringify` dropping `undefined` properties and the order of object keys in the reply are not modelled. A map has no order.
- The `details: error.message` text of a 500 reply is not modelled.
- The litigant search and the CINO lookup put the client's `cookies` into the `Cookie` header as sent. How axios serialises an array value there is not modelled.
- The response headers other than `Cookie`, `Referer` and `Origin` are constant and are not modelled.
