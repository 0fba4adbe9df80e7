# MCC door parameter extraction, modelled in Dafny

The extractor turns free text about a Motor Control Center (MCC) door into a
fixed record: Type (Freedom Plus or Freedom Plus FlashGard), Arc Rated, Door
Height in inches, Bucket Type (drive or starter), Handle Type (up-down or
rotary), the door Cutouts, and Door Thickness in gauge. There are three
readers and one default-filling step:

- **The document reader** (`extract_mcc_info_from_text`) always fills every
  field. Type is a substring test. Arc rating, gauge, RotoTract and Reset
  follow from Type and Bucket. Height comes from an ordered list of four
  patterns, 48 when none matches. Modelled as the method
  `DocumentText.ExtractMccInfoFromText`; each block of the source is one
  helper method.
- **The strict text reader** (the text body of `extract_info_from_txt`)
  leaves a field `None` when nothing matches. Type, height, bucket and handle
  each come from an ordered list of patterns where the first that matches
  anywhere wins. The gauge follows the arc rating, and is read from the text
  only when the arc rating is unknown. Modelled as the method
  `StrictText.ExtractInfoFromTxt`, proved equal to the function
  `StrictText.InfoFromTxt`, about which the lemmas speak.
- **The conversation summariser** (`extract_summary_from_conversation`)
  joins every message after the system prompt with single spaces and lower
  cases the result. Each field is then a keyword test on that corpus, except
  the height, which is read from the LAST `N inch`. Modelled as the pure
  function `Conversation.ExtractSummaryFromConversation`.
- **The summary assembly** (`info.get(key, default)` in `main`) fills a
  default only for a key that is ABSENT, so a `None` the strict reader
  stored survives. Modelled as `Assembly.AssembleSummary`.

The regular expressions are written out as deterministic scanners in
`Patterns`, each taking the longest run at every greedy step. Backtracking
cannot change the outcome. Most greedy runs are followed by a token that
cannot start with a character of the run. Where two runs meet, as in the
first `\s*` of `\s*:?\s*`, every way of splitting the run between them
ends at the same position, so the longest split succeeds whenever any does. `re.search` is the leftmost start position at which a scanner
succeeds (`Patterns.Search`). An ordered rule list, with its
`for pattern in …: if match: … break` loop, is `Rules.FirstHit` and the
method `Rules.FindFirst`.

Modules: `Wrappers` (Option), `Text` (ASCII lower case, substrings, character
runs, decimal numerals), `Door` (the enumerations and the gauge), `Priority`
(first success in a list of attempts), `Patterns`, `Rules`, `DocumentText`,
`StrictText`, `Conversation`, `Assembly`.

Behaviour of the code worth knowing:

- The document reader fills every field. Pemstud and Handle are never
  "unknown" there; they are false and Rotary when not mentioned.
- The strict reader's RotoTract cutout is not gated by the type. "with
  rototract" sets it while the type stays unset
  (`StrictText.RotoTractNotGatedByType`). So "RotoTract implies FlashGard"
  holds for the document reader and the conversation summariser only.
- The conversation summariser computes a Reset value (bucket OR "reset
  cutout") but does not return it. Its summary has four cutout keys.
- The document reader's fan test also accepts "cooling fan", and its device
  panel test accepts "device panel", "control panel", "pushbutton" and
  "pilot device".
- The assembly's defaults for the Fan, Pemstud and Device Panel cutouts are
  True.

## Model

| member | source | states |
|---|---|---|
| DocumentText.ExtractMccInfoFromText | mcc.py:75-151 | The record read from a document keeps arc rating, gauge, RotoTract and Reset in step with Type and Bucket. Type is FlashGard iff the lower-cased text says "flashgard". Height is the height rules' verdict. Bucket, handle, fan, pemstud and device panel are each true iff one of their keywords occurs. |
| DocumentText.DetectType | mcc.py:80-92 | FlashGard iff "flashgard" occurs, whether or not "freedom plus" does. Arc rated iff FlashGard. The gauge is 12 for arc rated, else 14. |
| DocumentText.ReadDocHeight | mcc.py:94-108 | The first-match loop over the four height rules returns the number captured by the first rule that matches anywhere, and 48 when none does. |
| DocumentText.HeightFromDoc | mcc.py:102-108 | A text that never says "height" or "tall" gets the default height 48, which the `for … else` branch supplies. |
| DocumentText.DocRulesNeedWord | mcc.py:95-108 | In a document that never says "height" or "tall" no height rule matches, so the default 48 is taken: every rule needs one of those words. |
| DocumentText.DocRuleNeedsWord | mcc.py:95-100 | Each of the four height rules matches only in a text containing "height" or "tall". |
| DocumentText.LabelledDocHeight | mcc.py:96-106 | A document that opens with "door height: N in" has height N, for every N: the first rule finds it and `int` reads back the numeral. |
| DocumentText.DetectBucket | mcc.py:110-114 | Drive bucket iff "drive bucket", "vfd" or "variable frequency" occurs. |
| DocumentText.DetectHandle | mcc.py:116-120 | Up-down handle iff "up-down handle" or "up down handle" occurs, rotary otherwise. |
| DocumentText.DetectCutouts | mcc.py:122-149 | RotoTract iff FlashGard and Reset iff drive bucket, whatever cutout words appear. Fan, pemstud and device panel are each true iff one of their keywords occurs. |
| Rules.FindFirst | mcc.py:423-432 | The break-on-first-match loop returns exactly the first rule, in list order, whose pattern matches, with its leftmost match. None iff no rule matches. |
| Rules.FirstHit | mcc.py:447-455 | The winning rule matches and every earlier rule fails. None iff every rule fails. A numeric rule's capture is all digits. |
| Rules.FirstHitAt | mcc.py:470-479 | A rule that matches after rules that all fail is the winner. |
| Patterns.MatchAt | mcc.py:411-503 | Group 1 of a pattern matched at a position starts there or later and lies in the text. A numeric group is a non-empty run of digits. A word group ends where its words end. |
| Patterns.Search | mcc.py:424 | `re.search`: None iff the pattern matches at no position. Otherwise the match starts at the leftmost position where it matches, and its group lies within the text. |
| StrictText.ExtractInfoFromTxt | mcc.py:408-573 | The strict reader returns exactly `InfoFromTxt` of the lower-cased text. Its arc rating follows its type, and a known arc rating fixes the gauge. |
| StrictText.ReadTxtType | mcc.py:410-432 | The type loop returns the type the winning type rule's group names. |
| StrictText.ArcRatedOf | mcc.py:436 | Arc rated is unknown iff the type is, true iff FlashGard, false iff Freedom Plus. |
| StrictText.TxtTypeByRule | mcc.py:411-432 | The type is unset iff no type rule matches anywhere. It is FlashGard iff the winning rule is one of the two that capture "freedom plus flashgard". |
| StrictText.TxtTypeFound | mcc.py:416-417 | Any text containing "freedom plus" gets a type: the bare rules catch it whether or not "flashgard" follows. |
| StrictText.TxtTypeAbsent | mcc.py:411-435 | A text that never says "freedom" leaves the type unset. No default is substituted. |
| StrictText.NumberFromTxt | mcc.py:439-455 | A list of numeric rules reads nothing iff none of its rules matches anywhere. |
| StrictText.ReadTxtNumber | mcc.py:447-455 | The numeric first-match loop returns the winning rule's digits as a number, or None. |
| StrictText.ReadTxtHeight | mcc.py:438-458 | The height is the number the first matching height rule captures, and None when no rule matches. |
| StrictText.NumberNeedsDigit | mcc.py:439-443 | Height and thickness rules read nothing from a text without digits. The height then stays None rather than 48. |
| StrictText.ReadTxtBucket | mcc.py:460-482 | The bucket loop returns the bucket the winning bucket rule's group names. |
| StrictText.TxtBucketByRule | mcc.py:461-479 | The bucket is unset iff no bucket rule matches anywhere. It is a drive bucket iff the winning rule's group says "drive", that is, iff it is one of the two drive-bucket rules. |
| StrictText.TxtBucketFound | mcc.py:464-465 | Any text containing "drive bucket" or "starter bucket" gets a bucket. |
| StrictText.ReadTxtHandle | mcc.py:484-506 | The handle loop returns the handle the winning rule's group names, which may be None although a rule matched. |
| StrictText.TxtHandleByRule | mcc.py:485-503 | The handle is unset iff no handle rule matches, so the branch that leaves it unset after a match is never taken. It is up-down iff the winning rule is one of the two up-down rules. |
| StrictText.CutoutsFromTxt | mcc.py:508-551 | The pemstud cutout is set iff the text says "pemstud" or "pem stud". The device panel cutout is set only when the text says "device panel". |
| StrictText.PemstudKeywordsReduce | mcc.py:531-539 | The six pemstud keywords come down to "pemstud" or "pem stud", both directions. |
| StrictText.DevicePanelKeywordsNamePanel | mcc.py:541-549 | Each device panel keyword contains "device panel". |
| StrictText.RotoTractNotGatedByType | mcc.py:511-519 | The RotoTract cutout is set by "with rototract" while the type stays unset. |
| StrictText.ReadTxtThickness | mcc.py:553-573 | With the arc rating known, the gauge is 12 or 14 to match. Only when it is unknown is the gauge read from the thickness rules. |
| StrictText.UntypedThicknessNeedsDigit | mcc.py:556-573 | With the type unknown and no digit in the text, the gauge stays None. |
| StrictText.InfoFromTxtConsistent | mcc.py:435-555 | Every record the strict reader returns has arc rating equal to what the type implies, and a gauge fixed by a known arc rating. |
| Conversation.ExtractSummaryFromConversation | mcc2.py:47-96 | Every summary has arc rated iff FlashGard, gauge 12 iff arc rated else 14. RotoTract is set iff the corpus says "rototract" and the door is arc rated. |
| Conversation.Corpus | mcc2.py:50-51 | The corpus holds no upper-case letter, and is empty when there is no message after the system prompt. |
| Conversation.KeywordTurnsDecide | mcc2.py:53-75 | Both directions for the space-free keywords: FlashGard, arc rated and 12 gauge iff a later message says "flashgard", else Freedom Plus, not arc rated, 14 gauge. Drive bucket iff one says "drive", else starter bucket. Pemstud iff one says "pemstud". RotoTract iff messages say both "rototract" and "flashgard". |
| Conversation.WordInTurns | mcc2.py:50-51 | A word without a space is in the corpus iff some later message contains it once lower-cased: the joining spaces cannot make one up. |
| Conversation.NoTurnDefaults | mcc2.py:47-96 | A conversation with no message after the system prompt gives Freedom Plus, not arc rated, 48 inches, starter bucket, rotary handle, no cutouts and 14 gauge. |
| Conversation.PhraseAcrossTurns | mcc2.py:50-68 | A phrase with a space can be made up by the join: messages "up-down" and "handle" give an up-down handle although no message says "up-down handle". |
| Conversation.FirstMessageIgnored | mcc2.py:49-51 | Replacing the first message (the system prompt) never changes the summary. |
| Conversation.MentionReachesCorpus | mcc2.py:50-51 | A word that any later message contains, in any letter case, is in the corpus. |
| Conversation.LaterMentionDecides | mcc2.py:53-75 | One later message saying "flashgard" makes the door an arc-rated, 12 gauge FlashGard, whatever the other messages say. "drive" likewise makes the bucket a drive bucket, "up-down handle" or "up down handle" the handle up-down, and "fan cutout", "pemstud" and "device panel cutout" their cutouts. |
| Conversation.HeightWithoutInch | mcc2.py:57-62 | A corpus that never says "inch" gets the default height 48. |
| Conversation.AppendTurnHeight | mcc2.py:57-60 | Appending a later message "N inch" makes the height N, whatever came before: the height comes from the last match. |
| Conversation.InchMatchAt | mcc2.py:58 | A match of `(\d+)\s*inch` at a position has a non-empty group 1 starting there, and the whole match ends after that group, within the text. |
| Conversation.InchMatches | mcc2.py:58 | `re.findall` from a position: every group it returns lies inside the text at or after that position. |
| Conversation.InchMatchesEmpty | mcc2.py:58 | `findall` returns nothing iff no match starts at or after the position. |
| Conversation.InchMatchesAreMatches | mcc2.py:58 | Every group `findall` returns is group 1 of the match that starts where the group does. |
| Conversation.InchMatchesFirst | mcc2.py:58 | No match starts between the scan's start and the first group returned. |
| Conversation.InchMatchesInOrder | mcc2.py:58 | The groups come left to right, each ending before the next starts. |
| Conversation.InchMatchesNoGap | mcc2.py:58 | No match starts between the end of one group's match and the start of the next group: the scan skips no match. |
| Conversation.InchMatchesLastComplete | mcc2.py:58 | The last group returned belongs to a match after whose end no match starts. |
| Conversation.HeightIsFinalMatch | mcc2.py:57-60 | When the corpus has any match, the height is the number captured by a match after whose end no match starts (`height_matches[-1]`), and that capture is all digits. |
| Conversation.HeightFromCorpus | mcc2.py:57-62 | The height is 48 when no match of `(\d+)\s*inch` starts anywhere in the corpus. |
| Conversation.NegatedDriveStillDrive | mcc2.py:65 | The bucket test is a bare substring test. "starter bucket, no drive" still gives a drive bucket. |
| Assembly.AssembleEmpty | mcc2.py:505-518 | An empty record yields Freedom Plus, not arc rated, 48, starter bucket, rotary handle, no RotoTract, fan, pemstud and device panel cutouts, and 14 gauge. |
| Assembly.AssembleSummary | mcc2.py:505-518 | A field or cutout of the assembled summary is None only when the record held that key with the value None. |
| Assembly.AssembleKeepsPresent | mcc2.py:506-517 | A present key is copied as it is, None included, for every field and every cutout key. Only an absent key takes its default: RotoTract False, and Fan, Pemstud and Device Panel True. A missing Cutouts dictionary gives those four defaults. |
| Assembly.AssembleIdempotent | mcc2.py:505-518 | Assembling a summary written back as a dictionary returns it unchanged. |
| Assembly.AssembleStrictKeepsUnknowns | mcc2.py:499-518 | Applied to the strict reader's record, the assembly substitutes no default: every field is the one the reader found. |
| Assembly.AssembleUntypedText | mcc2.py:499-507 | A file that never says "freedom" leaves the summary's type and arc rating None; the "Freedom Plus" default does not apply. |
| Door.Gauge | mcc.py:84-92 | 12 gauge iff arc rated, 14 gauge iff not. |
| Text.DecimalRoundTrip | mcc.py:105 | `int(str(n)) == n`: the numeral of a number reads back as that number. |

## Left out

- The Streamlit interface, session state and chat loop, the call to the local language-model server, the PDF, DOCX and TXT readers, saving and displaying the summary, the interactive prompts for missing fields, the initial prompt text and every debug print. They are user interface, network or file I/O around the extractor.
- Reading the file in the strict reader: the model starts from the file's text. The missing-file and exception paths both return an empty dictionary; the model represents that dictionary as `Assembly.EmptyInfo`, and `Assembly.AssembleEmpty` states what the assembly makes of it.
- Letter case and character classes are ASCII: `str.lower()` folds only A-Z, and `\d` and `\s` are the ASCII classes. Python's Unicode lower-casing and Unicode digits are not modelled.
- `int()` is total on ASCII digit strings in the model. Python's limit on conversions of more than 4300 digits is left out, so the `except ValueError: continue` branches of the height and thickness loops are never taken.
- The regular-expression engine itself: each pattern of the source is a hand-written scanner, valid only for these patterns.
- Dictionary key order, and the strict reader storing its cutouts as a present dictionary whose keys are always all set. A `Cutouts` key holding `None` is not modelled.
- The conversation summariser's Reset value is computed by the source but not returned, so the model has no Reset field there.
- The copies of the conversation summariser at mcc.py:190-239 and of the strict reader at mcc2.py:249-419 are the same code as the versions modelled, so they are not modelled twice.
- Conversation.ExtractSummaryFromConversation: its own ensures states the invariant linking arc rating, gauge and RotoTract. The keyword fields are stated in lemmas. For a space-free keyword both directions hold (`KeywordTurnsDecide`). For the phrases with a space ("up-down handle", "up down handle", "fan cutout", "device panel cutout") only "a later message says it, so the field is set" is proved (`LaterMentionDecides`). The converse is false, because the join can make the phrase up across two messages (`PhraseAcrossTurns`).
- Conversation.HeightIsFinalMatch: a match after whose end no match starts need not be unique when matches overlap. In "12 inch", matches start at the "1" and at the "2" and both end at the text's end. The lemma does not say which one the height comes from. `InchMatchesNoGap`, `InchMatchesLastComplete` and the other `InchMatches` lemmas fix which one `findall` reports: the scan resumes at a match's end, so it reports the one at the "1".
