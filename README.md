# Broadgate / VoiceFlow AI lead assistant, modelled in Dafny

The system lets a website visitor talk to a conversational video agent. It then turns the
conversation into a sales lead. It has three parts.

- **The Python back end** (`utils/`):
  - a client of the video API that finds documents and personas, creates and ends
    conversations, and fetches a conversation's messages;
  - the extraction of a transcript, a name and an email address from those messages;
  - a webhook notification and a SQLite `leads` table;
  - a website scraper and PDF text utilities that build the agent's knowledge base.
- **Two WordPress plugins**: the earlier plugin's API class, and the assistant plugin. The
  assistant plugin has an API class with an avatar cache, a main class that renders the widget
  and answers AJAX calls, and a front-end script that drives the widget and the Daily call.
- **The data flow between them**:
  - the JSON the AJAX handlers send is the JSON the script reads;
  - the transcript the extraction builds is what the webhook and the table receive.

The model is split into one module per source file, plus shared modules:

- `Wrappers`: `Option` and `Result`.
- `Text`: the string functions of Python, PHP and JavaScript.
- `Json`: decoded JSON values, and how each language reads them (truthiness, key lookup,
  `??`, string conversion).
- `Http` and `Wp`: HTTP exchanges and the WordPress HTTP API.

Each HTTP operation is modelled as two parts:

- the request it sends, or `None` when a guard stops it first;
- its reading of the exchange that follows, which is an input.

The regular expressions of the extraction module are specified declaratively. A predicate says
which position triples match. Further predicates say which match Python's backtracking
`re.search` prefers: the leftmost start, then the first alternative, then the greediest
quantifiers from left to right. A scanner computes a match, and lemmas prove it is exactly the
preferred one.

Parts of the source change state in place, and those are classes in the model:

- the `leads` table (`Database.LeadStore`);
- the avatar transient (`AssistantApi.Transients`);
- the plugin's rendered flag (`Assistant.Plugin`);
- the widget's DOM state and the script's `call`/`isMuted` variables (`Frontend.Widget`).

Source loops are `method`s with loop invariants, proved against a specification function:

- the transcript assembly;
- the name search of the API client;
- the retry loop of the scraper;
- the page accumulation and directory scan of the PDF utilities.

The table's queries are SQL, not loops of the source. The `WHERE ts BETWEEN` filter and the
`ORDER BY ts DESC` sort are each modelled as a method with a loop. Each method stands for what
SQLite does for that clause, and it is proved against its own specification function.

## Model

| member | source | states |
|---|---|---|
| Text.OrEmpty | utils/webhook.py:19-20 | `x or ""`: the value when it is truthy, else the empty text |
| Text.Lower | broadgate_ai_assistant/includes/class-broadgate-api.php:119 | case-insensitive comparison lower-cases exactly the ASCII capitals, position by position |
| Text.Strip | utils/extraction.py:46 | `str.strip()`: the result is empty or starts and ends with a non-whitespace character, and is never longer than the input |
| Text.StripRemovesBlankEnds | utils/extraction.py:46 | the result of `str.strip()` is a slice of the input, and everything cut off before or after it is whitespace |
| Text.SplitOnJoin | utils/web_scraper.py:48 | `s.split(sep)` joined back with `sep` gives `s` |
| Text.SplitOnPiecesFree | utils/web_scraper.py:48 | no piece of `s.split(sep)` contains `sep` |
| Text.SplitLines | utils/web_scraper.py:47 | `splitlines()` yields lines that contain no line-break character |
| Text.SplitLinesEmpty | utils/web_scraper.py:47 | `splitlines()` has no lines exactly for the empty text |
| Text.SplitLinesRebuild | utils/web_scraper.py:47 | the lines, each followed by the line ending that was dropped after it, give back the text |
| Text.LineEndingsWellFormed | utils/web_scraper.py:47 | each dropped ending is one line-break character or `\r\n`; only the last line may have none, and then that line is not empty; a lone `\r` is never followed by `\n` |
| Text.FindFrom | utils/web_scraper.py:48 | the leftmost occurrence of the separator at or after a position, or proof that none exists |
| Text.NatToDecimal | broadgate_ai_assistant/includes/class-broadgate-api.php:180 | the decimal digits of a natural number: their value is the number, with no leading zero |
| Text.IntToDecimal | broadgate_ai_assistant/includes/class-broadgate-api.php:180 | `(string)$status_code`: the digits of the number's value with no leading zero, after a `-` for a negative number |
| Text.LexLeTotal | utils/database.py:55 | text order under `ORDER BY ts` is total |
| Text.LexLeTransitive | utils/database.py:55 | text order under `ORDER BY ts` is transitive |
| Text.LexLeAntisymmetric | utils/database.py:55 | two texts in order both ways are equal |
| Json.LookupSpec | broadgate_ai_assistant/includes/class-broadgate-api.php:201-212 | a key lookup fails exactly when no binding has the key, and otherwise yields a bound value |
| Json.PyGetOr | utils/api.py:23 | `d.get(k, default)` gives the bound value, or the default only when the key is absent |
| Json.PyStr | utils/extraction.py:33 | `str()` of a truthy value is non-empty, and `str()` of a string is the string |
| Json.PhpIndex | broadgate_ai_assistant/includes/class-broadgate-api.php:86-93 | `$v[$k]` under `??` is set exactly when `$v` is an array binding `$k` to a non-null value |
| Json.Coalesce | broadgate_ai_assistant/includes/class-broadgate-api.php:85-94 | `$a ?? $b ?? ...` is null exactly when every operand is; otherwise it is the first operand that is set |
| Webhook.LeadPayload | utils/webhook.py:17-23 | the notification carries the id, the transcript and the time, with a falsy name or email sent as `""` |
| Webhook.SendToWebhook | utils/webhook.py:11-35 | no URL means no POST and `None`; otherwise exactly one POST with a 5-second timeout, and `True` exactly for a non-error response |
| Database.MigratedColumns | utils/database.py:17-30 | after `init_db` the table exists and has `ts`; an existing table keeps its other columns |
| Database.MigrationIdempotent | utils/database.py:11-33 | running `init_db` twice is the same as running it once |
| Database.TsAtLeastTotal | utils/database.py:55 | any two rows are ordered one way or the other under `ts DESC` with NULLs last |
| Database.TsAtLeastTransitive | utils/database.py:55 | the `ts DESC` order is transitive |
| Database.InsertByTs | utils/database.py:55 | inserting a row into a sorted list adds exactly that row |
| Database.InsertByTsSorted | utils/database.py:55 | inserting into a list sorted by `ts DESC` keeps it sorted |
| Database.SortByTsDesc | utils/database.py:55 | the result is sorted by `ts DESC` and is a permutation of the rows |
| Database.RowsInRange | utils/database.py:89-95 | a row is selected exactly when it is stored and its `ts` lies between the bounds inclusively (NULL never does) |
| Database.LeadStore.Empty | utils/database.py:11-24 | a database without the `leads` table: no columns, no rows, counter 0 |
| Database.LeadStore.Open | utils/database.py:11-33 | an existing database whose table may predate the `ts` column |
| Database.LeadStore.InitDb | utils/database.py:11-33 | creates the table when absent and adds `ts` when missing, leaving rows and counter unchanged |
| Database.LeadStore.SaveLead | utils/database.py:36-47 | without the table or `ts` column the INSERT fails and nothing changes; otherwise exactly one row is appended, with the next AUTOINCREMENT id and the current time |
| Database.LeadStore.SelectError | utils/database.py:50-69 | a SELECT of the five columns succeeds exactly when the table has `ts` |
| Database.LeadStore.GetAllLeads | utils/database.py:50-69 | every row exactly once, latest `ts` first and NULLs last; otherwise the SQLite error |
| Database.LeadStore.GetLeadCount | utils/database.py:72-81 | the number of rows, needing only the table |
| Database.LeadStore.GetLeadsByDateRange | utils/database.py:84-109 | with both bounds truthy, exactly the rows in range, sorted; with either missing, every row, as `get_all_leads` |
| Database.RangeResultMembers | utils/database.py:89-95 | a range result holds a row exactly when the row is stored and in range |
| Database.NextIdFresh | utils/database.py:41-44 | an id beyond every id handed out keeps ids increasing and is distinct from every stored id |
| Api.Headers | utils/api.py:10-14 | the key header exactly when the key is truthy, else `ValueError` |
| Api.JsonBody | utils/api.py:22-23 | `raise_for_status()` then `r.json()`: a transport failure raises, a 4xx/5xx status raises with that status, and otherwise the decoded body |
| Api.Iterated | utils/api.py:23 | a `for` loop visits a list's items, and only strings for a dict or a string; a number or boolean cannot be looped over |
| Api.FirstNamed | utils/api.py:23-26 | the search loop returns the first item named so, `None` when every item is a dict without the name, and `AttributeError` at a non-dict met first |
| Api.FirstNamedUnique | utils/api.py:23-26 | that specification admits exactly one outcome |
| Api.InterpretListing | utils/api.py:21-26 | errors of the exchange propagate; a non-dict body raises; otherwise the search over `data` (default `[]`) |
| Api.FindDocumentByName | utils/api.py:19-26 | no key means no request; otherwise one GET of the document list, then the first document with that `document_name`; an unreadable response, a body that is not a dict, and a `data` that cannot be looped over raise |
| Api.FindPersonaByName | utils/api.py:39-46 | no key means no request; otherwise one GET of the persona list, then the first persona with that `persona_name`; an unreadable response, a body that is not a dict, and a `data` that cannot be looped over raise |
| Api.BuildConversationPayload | utils/api.py:75-82 | the dict built in place equals the payload specification |
| Api.ConversationPayloadKeys | utils/api.py:75-82 | both ids are always sent, with the configured replica only for a missing one; `callback_url` exactly when truthy; `test_mode` exactly when true |
| Api.CreateConversation | utils/api.py:64-86 | no key means no request; otherwise one POST of the payload, and the decoded body whatever its shape |
| Api.EndConversation | utils/api.py:89-101 | the id is checked before the key and neither failure sends anything; an error status raises, a transport failure raises, a JSON 200 gives its body (or fails to parse without one), and any other response gives the fixed "Conversation ended" value |
| Api.GetConversationMessages | utils/api.py:104-116 | a falsy id gives `[]` with no request; a missing key raises; a 404 gives `[]`; other error statuses and unreadable bodies raise; a dict body gives its `data` or `[]`; any other body raises |
| Api.ListBodyRaisesAsWritten | utils/api.py:116 | a 200 JSON list body raises `AttributeError` as written |
| Api.GetConversationMessagesFixed | utils/api.py:104-116 | the corrected reading returns a list body as the message list and agrees with the original everywhere else |
| Api.FixedKeepsAcceptedBodies | utils/api.py:104-116 | the correction changes no response the original accepts |
| Extraction.FirstTruthy | utils/extraction.py:25-31 | the `or` chain yields a truthy value bound to one of the keys, and nothing exactly when no key has a truthy value |
| Extraction.FirstTruthyInOrder | utils/extraction.py:25-31 | the keys are tried in order: the value is the one under the first key whose value is truthy |
| Extraction.AssembleTranscript | utils/extraction.py:17-35 | the loop returns the transcript specification: `""` for a falsy value, an error for values Python cannot loop over as dicts, else the texts of the messages joined by newlines |
| Extraction.ContributionsNonEmpty | utils/extraction.py:32-33 | only non-empty texts are appended |
| Extraction.ContributionsAppend | utils/extraction.py:23-33 | texts follow message order: the texts of a concatenation are concatenated |
| Extraction.ContributionsEmptyIff | utils/extraction.py:25-33 | no text is appended exactly when no message has a truthy `text`, `content`, `message` or `transcript` |
| Extraction.TranscriptEmptyIff | utils/extraction.py:12-35 | a list of dicts gives an empty transcript exactly when no message has a truthy text field |
| Extraction.TranscriptConcat | utils/extraction.py:35 | the transcript of two message lists is the first's, a newline, then the second's |
| Extraction.MatchCue | utils/extraction.py:44 | the one-alternative scanner returns a match of `cue\s+([a-zA-Z\s]+)` |
| Extraction.MatchCueCorrect | utils/extraction.py:44 | the scanner finds the greedy match whenever one exists, and none only when none exists |
| Extraction.MatchAlternatives | utils/extraction.py:44 | the alternation scanner returns a match through one cue |
| Extraction.MatchAlternativesCorrect | utils/extraction.py:44 | it is the first alternative in order that matches, with its preferred group |
| Extraction.SearchName | utils/extraction.py:44 | the search scanner returns a match |
| Extraction.SearchNameCorrect | utils/extraction.py:44 | it is the preferred match at the leftmost matching position |
| Extraction.SearchNameIsSearchResult | utils/extraction.py:44-51 | the scanner's result is exactly `re.search`'s, and it is `None` exactly when nothing matches |
| Extraction.SearchResultUnique | utils/extraction.py:44-51 | `re.search` has at most one result under the preference order |
| Extraction.ExtractName | utils/extraction.py:38-53 | `None` for an empty text; a found name has only letters and blanks and does not start or end with whitespace |
| Extraction.NameFromGroup | utils/extraction.py:46 | `group(1).strip()` has only letters and blanks and no whitespace at its ends |
| Extraction.ExtractNameFirstPattern | utils/extraction.py:44-46 | whenever the first pattern matches, its stripped group is returned |
| Extraction.ExtractNameSecondPattern | utils/extraction.py:49-51 | the second pattern's stripped group is returned when the first pattern matches nowhere |
| Extraction.ExtractNameNone | utils/extraction.py:38-53 | no name exactly when the text is empty or neither pattern matches anywhere |
| Extraction.NameExample | utils/extraction.py:44-46 | `"I am Ann."` gives `"Ann"`: the group stops at the full stop |
| Extraction.BlankNameExample | utils/extraction.py:44-46 | `"i am  ."` gives `""`: backtracking leaves one blank to the group, and strip empties it |
| Extraction.LastTldDot | utils/extraction.py:61 | the last dot in a range that starts a two-letter label, or proof that none exists |
| Extraction.EmailAt | utils/extraction.py:61 | the scanner at one position returns a match of the address pattern |
| Extraction.EmailAtCorrect | utils/extraction.py:61 | it is the preferred match there (longest local part, then domain, then label), and none only when none exists |
| Extraction.EmailLocalPartEnd | utils/extraction.py:61 | any match's local part ends where the run of local characters ends |
| Extraction.EmailDotRange | utils/extraction.py:61 | any match's last dot lies inside the domain run and starts a label |
| Extraction.SearchEmail | utils/extraction.py:61 | the search scanner returns a match |
| Extraction.SearchEmailCorrect | utils/extraction.py:61 | it is the preferred match at the leftmost matching position |
| Extraction.ExtractEmail | utils/extraction.py:56-66 | `None` for an empty text; a found address has a local part, one `@`, a domain and a label of two or more letters |
| Extraction.EmailText | utils/extraction.py:64 | `group(0)` of any match has that shape |
| Extraction.ExtractEmailMatchesSearch | utils/extraction.py:61-64 | the address returned is the text of `re.search`'s match |
| Extraction.ExtractEmailNone | utils/extraction.py:56-66 | no address exactly when the text is empty or the pattern matches nowhere |
| Extraction.EmailExample | utils/extraction.py:61-64 | `"at a@b.io"` gives `"a@b.io"`, starting at the leftmost position that matches |
| Extraction.ExtractInfoAndSendWebhook | utils/extraction.py:69-99 | a falsy id does nothing; otherwise the messages are fetched with `get_conversation_messages` as written and assembled, the webhook receives what `send_to_webhook` sends for that transcript, name and email, and then exactly one lead with the same name and email is stored; a fetch, assembly or save error stops the run there and stores nothing |
| Extraction.ListBodyStopsThePipeline | utils/extraction.py:12-35 | as written, a response that is the message list ends the run at the fetch with an error |
| Extraction.ListBodyTranscript | utils/extraction.py:12-35 | with the corrected reading, a response that is the message list gives that list, and its transcript is the messages' texts, one per line |
| WebScraper.Phrases | utils/web_scraper.py:47-49 | every kept phrase is non-empty and has no whitespace at either end |
| WebScraper.LinePhrases | utils/web_scraper.py:48 | the same for the phrases of one line |
| WebScraper.NonEmpty | utils/web_scraper.py:49 | `if chunk` keeps exactly the non-empty pieces and never adds any; one piece is kept exactly when it is non-empty |
| WebScraper.NonEmptyAppend | utils/web_scraper.py:49 | the filter keeps the order: filtering a concatenation concatenates the filtered parts |
| WebScraper.PhrasesAvoid | utils/web_scraper.py:47-49 | no phrase contains two consecutive spaces or a newline |
| WebScraper.PiecesAvoidNewline | utils/web_scraper.py:48 | splitting text without a newline gives pieces without one |
| WebScraper.SplitJoinedLines | utils/web_scraper.py:49 | joining newline-free pieces with a newline and splitting again gives the pieces back |
| WebScraper.CleanTextLines | utils/web_scraper.py:47-49 | the lines of the cleaned text are exactly the phrases: non-empty, stripped, without double spaces |
| WebScraper.BlankTextCleansToEmpty | utils/web_scraper.py:47-49 | text without a phrase cleans to `""` |
| WebScraper.FetchFromSpec | utils/web_scraper.py:31-61 | after failed attempts, the loop stops at the first success with its text; with none, it makes every allowed attempt |
| WebScraper.ScrapeWebsite | utils/web_scraper.py:11-61 | the retry loop gives the retry specification: the cleaned text of the first success and the number of attempts made |
| WebScraper.ScrapeWithoutRetries | utils/web_scraper.py:31-61 | no attempt and `None` when `max_retries` is not positive |
| WebScraper.ScrapeSuccess | utils/web_scraper.py:33-51 | a text is returned only from the first successful attempt within the limit, and it is that page's text cleaned |
| WebScraper.ScrapeFailure | utils/web_scraper.py:53-61 | `None` means every allowed attempt was made and failed |
| WebScraper.BlocksAppend | utils/web_scraper.py:76-84 | the blocks of two runs of pages are those of each run in turn |
| WebScraper.BlocksMembers | utils/web_scraper.py:79-80 | a block appears exactly for a page whose scrape gave non-empty text |
| WebScraper.ScrapeMultiplePages | utils/web_scraper.py:64-84 | the result is the blocks joined by newlines, and `""` for no URL |
| PdfProcessor.PagesTextIsJoin | utils/pdf_processor.py:17-22 | the accumulated text is the pages joined by newlines plus one final newline |
| PdfProcessor.ExtractTextFromPdf | utils/pdf_processor.py:4-27 | a missing file raises before reading; a failed read gives `""`; otherwise the stripped text of the pages, with no whitespace at either end |
| PdfProcessor.PathJoin | utils/pdf_processor.py:41 | `os.path.join`: an absolute name is the result; otherwise the directory, one `/` unless the directory is empty or already ends with one, then the name |
| PdfProcessor.FindPdfInDir | utils/pdf_processor.py:29-42 | the first listed name ending in `.pdf` in any case, joined to the directory, and `None` exactly when no name is a PDF |
| AssistantApi.LoadSettings | broadgate_ai_assistant/includes/class-broadgate-api.php:14-19 | a saved key, persona or replica is its text and a missing one reads as `false`; the greeting is the saved one or its default |
| AssistantApi.PhpToStringKeepsNonEmpty | broadgate_ai_assistant/includes/class-broadgate-api.php:108-111 | `(string)` of a value that is not `empty()` is a non-empty string |
| AssistantApi.Mp4UrlNotEmpty | broadgate_ai_assistant/includes/class-broadgate-api.php:119-120 | a string that passes the mp4 test is not `empty()` |
| AssistantApi.FindFirstMp4 | broadgate_ai_assistant/includes/class-broadgate-api.php:116-131 | a returned string is an http(s) URL with `.mp4` before `?` or the end |
| AssistantApi.FirstMp4From | broadgate_ai_assistant/includes/class-broadgate-api.php:126-129 | the same for the `foreach` over children |
| AssistantApi.FirstMp4Url | broadgate_ai_assistant/includes/class-broadgate-api.php:116-131 | the first passing string of a list, or proof that none passes |
| AssistantApi.FindFirstMp4IsFirstLeaf | broadgate_ai_assistant/includes/class-broadgate-api.php:116-131 | the depth-first walk finds exactly the first mp4 URL among all strings of the value, in document order |
| AssistantApi.Transients.constructor | broadgate_ai_assistant/includes/class-broadgate-api.php:35-36 | the transient as found at the start of the request |
| AssistantApi.AvatarFromReply | broadgate_ai_assistant/includes/class-broadgate-api.php:63-113 | a transport error is returned as it is; a non-2xx or non-JSON reply is an error with the debug data; otherwise the first set candidate field, or failing that the first mp4 URL; a 2xx JSON reply with a usable candidate or an mp4 URL succeeds, and a non-empty URL is returned |
| AssistantApi.GetIdleAvatarVideoUrl | broadgate_ai_assistant/includes/class-broadgate-api.php:34-114 | a usable cached URL is returned with no request; a missing key, then a missing replica, stop before any request; otherwise one GET of the replica, and a found URL is cached, so the next call hits the cache |
| AssistantApi.DotlessIsNotMp4 | broadgate_ai_assistant/includes/class-broadgate-api.php:119 | a string without a dot never passes the mp4 test |
| AssistantApi.EmptyFieldStopsTheChain | broadgate_ai_assistant/includes/class-broadgate-api.php:85-105 | `??` does not skip an empty `preview_video_url`, so a usable `idle_video_url` beside it is ignored and the call fails |
| AssistantApi.NullFieldContinuesTheChain | broadgate_ai_assistant/includes/class-broadgate-api.php:85-94 | a `null` `preview_video_url` lets the chain reach `idle_video_url` |
| AssistantApi.ConversationPayload | broadgate_ai_assistant/includes/class-broadgate-api.php:142-150 | persona, opening context and greeting are always sent, and the replica exactly when it is not `empty()` |
| AssistantApi.ConversationFromReply | broadgate_ai_assistant/includes/class-broadgate-api.php:166-224 | a transport error as it is; a non-2xx reply carries the API's message or the HTTP text, plus the debug data; a non-JSON body and a missing URL are errors; a 2xx JSON reply whose first set URL field is not `empty()` succeeds, with that URL as a non-empty string, the id or `""`, and the raw response |
| AssistantApi.CreateConversation | broadgate_ai_assistant/includes/class-broadgate-api.php:133-225 | a missing key or persona stops with an error naming which is missing; otherwise one POST of the payload with a 45-second timeout |
| AssistantApi.TopLevelUrlWins | broadgate_ai_assistant/includes/class-broadgate-api.php:201-206 | a usable top-level `conversation_url` is the URL returned, whatever `data` holds |
| AssistantApi.NestedUrlAccepted | broadgate_ai_assistant/includes/class-broadgate-api.php:201-224 | a response that nests the URL under `data` is accepted, with an empty id |
| PluginApi.LoadSettings | wordpress-plugin/includes/class-broadgate-api.php:15-20 | each saved option is its text; a missing key, persona or replica is `""`, and a missing greeting has this plugin's default |
| PluginApi.IssetOrEmpty | wordpress-plugin/includes/class-broadgate-api.php:63-64 | `isset($d[$k]) ? $d[$k] : ''` |
| PluginApi.ConversationFromReply | wordpress-plugin/includes/class-broadgate-api.php:49-65 | success exactly for status 200, with the URL and id as found or `""`; any other status is an error with the API's message or a default |
| PluginApi.CreateConversation | wordpress-plugin/includes/class-broadgate-api.php:25-66 | a missing key or persona means no request; otherwise one POST, with a 30-second timeout, of the same payload as the assistant plugin's |
| PluginApi.MissingUrlIsNotAnError | wordpress-plugin/includes/class-broadgate-api.php:62-65 | a 200 without a URL succeeds with `""` as the URL |
| PluginApi.CreatedIsAFailure | wordpress-plugin/includes/class-broadgate-api.php:57-60 | a 201 is reported as a failure |
| PluginApi.EndConversation | wordpress-plugin/includes/class-broadgate-api.php:71-93 | the key is checked before the id; the request is sent exactly when both are present; any reply at all counts as ended, and only a transport error fails |
| Assistant.Att | broadgate_ai_assistant/broadgate-ai-assistant.php:107-111 | `shortcode_atts`: a given attribute, else its default |
| Assistant.ShortcodeMarkup | broadgate_ai_assistant/broadgate-ai-assistant.php:104-114 | each attribute of the rendered widget is the given one or its default |
| Assistant.FooterIsDefaultShortcode | broadgate_ai_assistant/broadgate-ai-assistant.php:94-99 | the footer widget is the shortcode widget with no attributes |
| Assistant.LocalizedConfig | broadgate_ai_assistant/broadgate-ai-assistant.php:82-87 | the script's configuration carries the AJAX URL and the nonce |
| Assistant.AjaxBody | broadgate_ai_assistant/broadgate-ai-assistant.php:185-192 | `success` says whether the call succeeded; a result is sent as `data`, and an error as its message and `debug` data |
| Assistant.ConversationJson | broadgate_ai_assistant/includes/class-broadgate-api.php:220-224 | the conversation's URL, id and raw response as JSON fields |
| Assistant.AvatarJson | broadgate_ai_assistant/includes/class-broadgate-api.php:110-113 | the avatar URL and the cached flag as JSON fields |
| Assistant.Plugin.constructor | broadgate_ai_assistant/broadgate-ai-assistant.php:90-92 | a request starts with no widget rendered |
| Assistant.Plugin.RenderFloatingWidget | broadgate_ai_assistant/broadgate-ai-assistant.php:90-102 | nothing in the admin area or once rendered; otherwise exactly one default widget, so the footer never holds two |
| Assistant.Plugin.RenderShortcode | broadgate_ai_assistant/broadgate-ai-assistant.php:104-114 | always renders, and sets the flag so that no footer widget follows |
| Assistant.Plugin.AjaxCreateConversation | broadgate_ai_assistant/broadgate-ai-assistant.php:179-193 | a failed nonce check answers `-1` before the API is used; a missing key or persona answers the `missing_config` error saying which is missing, with no request; otherwise the one POST and its result or error as JSON |
| Assistant.Plugin.AjaxGetAvatar | broadgate_ai_assistant/broadgate-ai-assistant.php:196-210 | a failed nonce check answers `-1` and leaves the cache alone; a cache hit answers the cached URL without a request; a missing key or replica answers its `missing_config` error; otherwise the replica GET, its avatar URL or error as JSON, and the cache holds a URL found |
| Frontend.Cfg | broadgate_ai_assistant/assets/js/broadgate-frontend.js:5-8 | `broadgateAjax` when it has an AJAX URL, else `broadgateAI` when it has one, else `null` exactly when neither has |
| Frontend.FirstTruthyProp | broadgate_ai_assistant/assets/js/broadgate-frontend.js:137 | the `||` chain yields the value of the first field that is truthy, or `null` exactly when no field is truthy |
| Frontend.Top | broadgate_ai_assistant/assets/js/broadgate-frontend.js:135 | `resp.data` when it is truthy, else the response |
| Frontend.ExtractUrl | broadgate_ai_assistant/assets/js/broadgate-frontend.js:134-138 | the first truthy URL field of the holder, in the order `conversation_url`, `embed_url`, `iframe_url`, `url`, or `null` exactly when none is truthy; when `top.raw` is truthy, only the raw response is searched |
| Frontend.ExtractUrlFixed | broadgate_ai_assistant/assets/js/broadgate-frontend.js:134-138 | the corrected lookup takes the server's `conversation_url` first, then falls back to the original lookup |
| Frontend.FixNeverLosesUrl | broadgate_ai_assistant/assets/js/broadgate-frontend.js:134-138 | the corrected lookup finds a URL whenever the original does |
| Frontend.AvatarChoice | broadgate_ai_assistant/assets/js/broadgate-frontend.js:85-95 | the avatar URL is used exactly for a successful response with a truthy `data.avatar_url` |
| Frontend.TalkNowDecision | broadgate_ai_assistant/assets/js/broadgate-frontend.js:218-240 | a failed response shows its message or a default; a successful one starts a call at the extracted URL, or shows "No conversation URL"; every shown message is truthy |
| Frontend.TalkNowFixed | broadgate_ai_assistant/assets/js/broadgate-frontend.js:218-240 | the same handling with the corrected URL lookup, identical on every failed response |
| Frontend.Widget.constructor | broadgate_ai_assistant/assets/js/broadgate-frontend.js:2-3 | the widget starts idle, with no call, on the fallback video |
| Frontend.Widget.HideLoading | broadgate_ai_assistant/assets/js/broadgate-frontend.js:26-29 | hides the loader, enables the button, and changes nothing else |
| Frontend.Widget.ShowLoading | broadgate_ai_assistant/assets/js/broadgate-frontend.js:20-24 | clears the error, shows the loader, and hides and disables the button |
| Frontend.Widget.ShowError | broadgate_ai_assistant/assets/js/broadgate-frontend.js:31-36 | shows the message or "Something went wrong.", restores the button and leaves the in-call state, keeping the call |
| Frontend.Widget.ResetUI | broadgate_ai_assistant/assets/js/broadgate-frontend.js:99-121 | back to the idle card, unmuted with the label "Mute", keeping the call variable |
| Frontend.Widget.Hangup | broadgate_ai_assistant/assets/js/broadgate-frontend.js:123-132 | whatever leaving the call does, the call is dropped and the card is idle |
| Frontend.Widget.SetIdleVideoSrc | broadgate_ai_assistant/assets/js/broadgate-frontend.js:42-64 | the idle source becomes the URL when it is truthy, and nothing else changes |
| Frontend.Widget.LoadAvatar | broadgate_ai_assistant/assets/js/broadgate-frontend.js:66-97 | the avatar URL when the response has one, otherwise the fallback source, which an empty fallback leaves as it was |
| Frontend.Widget.ClickTalkNow | broadgate_ai_assistant/assets/js/broadgate-frontend.js:201-217 | without a configuration the configuration error is shown with the button back and enabled, and no request is sent; otherwise the in-call loading state with the button hidden and disabled, and one request; the call, mute state and panels are untouched |
| Frontend.Widget.StartAudioOnlyCall | broadgate_ai_assistant/assets/js/broadgate-frontend.js:148-195 | without Daily the error is shown with the button enabled, and the call and panels are untouched; otherwise a fresh unmuted call at the URL on the idle card, loading with the button disabled when the join succeeds, the join error with the button enabled when it fails |
| Frontend.Widget.OnConversationResponse | broadgate_ai_assistant/assets/js/broadgate-frontend.js:218-240 | with the lookup as written: a failure shows the decided message and leaves the call and panels alone; a URL starts the audio-only call with the same outcomes as `startAudioOnlyCall` |
| Frontend.Widget.OnJoinedMeeting | broadgate_ai_assistant/assets/js/broadgate-frontend.js:172-177 | hides the loader and shows the controls in the in-call state |
| Frontend.Widget.OnTrackStarted | broadgate_ai_assistant/assets/js/broadgate-frontend.js:164-170 | a remote video replaces the idle avatar; other tracks change nothing |
| Frontend.Widget.OnCallError | broadgate_ai_assistant/assets/js/broadgate-frontend.js:179-182 | shows the call error with the button back and enabled, without dropping the call or changing the mute state and panels |
| Frontend.Widget.OnLeftMeeting | broadgate_ai_assistant/assets/js/broadgate-frontend.js:184-186 | the call is dropped and the card is idle |
| Frontend.Widget.ClickMute | broadgate_ai_assistant/assets/js/broadgate-frontend.js:245-252 | nothing without a call; otherwise the flag flips, and the label follows only when `setLocalAudio` succeeds, so a failure leaves them disagreeing |
| Frontend.Widget.ClickHangup | broadgate_ai_assistant/assets/js/broadgate-frontend.js:255-257 | the call is dropped and the card is idle |
| Frontend.Widget.ClickClose | broadgate_ai_assistant/assets/js/broadgate-frontend.js:260-265 | ignored during a call; otherwise hangs up and hides the widget |
| EndToEnd.NestedUrlLostAsWritten | broadgate_ai_assistant/assets/js/broadgate-frontend.js:134-138 | the server accepts a response whose URL is under `data`, but the script as written finds no URL in it |
| EndToEnd.ScriptFindsNoUrl | broadgate_ai_assistant/assets/js/broadgate-frontend.js:135-137 | for that body, `top.raw` is the raw response, and none of its top-level URL fields is truthy |
| EndToEnd.EveryCreatedConversationStartsACall | broadgate_ai_assistant/assets/js/broadgate-frontend.js:218-231 | with the corrected lookup, every conversation the server reports created starts a call at its URL |
| EndToEnd.ServerErrorMessageIsShown | broadgate_ai_assistant/assets/js/broadgate-frontend.js:219-221 | a truthy server error message is the one the script shows |
| EndToEnd.LocalizedConfigIsFound | broadgate_ai_assistant/assets/js/broadgate-frontend.js:5-8 | the configuration the plugin localizes is found whenever its AJAX URL is not empty |
| EndToEnd.AvatarReachesTheVideo | broadgate_ai_assistant/assets/js/broadgate-frontend.js:85-88 | an avatar URL the server returns, cached or fresh, is the URL the script chooses for the idle video |
| EndToEnd.AvatarErrorUsesFallback | broadgate_ai_assistant/assets/js/broadgate-frontend.js:89-91 | for every server error the script chooses no avatar URL, so the idle video keeps its fallback |

## Left out

- Character classes, case folding and `\s` are ASCII only. Whitespace is space, `\t`, `\n`, `\r`, `\v`, `\f` and the separators `\x1c`–`\x1f`; `\x85`, `\xa0` and other Unicode whitespace, Unicode letters and Unicode case folding are not modelled.
- JSON numbers are integers, and an object with a duplicate key keeps its first binding. Floating point is not modelled.
- Json.PyRepr: `repr()` is simplified. A string gets single quotes with no escaping.
- Assistant.ShortcodeMarkup: the widget's HTML (broadgate-ai-assistant.php:116-177) is represented by its three attribute values. HTML escaping (`esc_url`, `esc_html`, `esc_attr`) is not modelled.
- AssistantApi.ReplicaUrl: `rawurlencode` of the replica id is not modelled. The id is used as it is.
- AssistantApi.GetIdleAvatarVideoUrl: the 6-hour expiry of the transient is not modelled. A cached URL stays until replaced.
- `wp_remote_get`, `wp_remote_post`, `requests`, the Daily call object, jQuery AJAX and the HTML parser are not modelled. Their outcomes are inputs. `Content-Type` request headers are not recorded in the requests.
- The clock (`datetime.utcnow()`), the configured URLs, keys and ids, the file system and the PDF reader are parameters.
- Logging, `print`, `console.error`, `error_log` and the 2-second `time.sleep` between scrape attempts are left out because they have no effect on results.
- `create_document_from_url` (utils/api.py:29-34) and `create_persona` (utils/api.py:49-59) are not modelled. They only POST a fixed payload and return the decoded body, the same shape as `Api.CreateConversation`.
- Database.LeadStore.GetAllLeads: rows are returned as `Lead` values, not projected into dicts with a renamed "timestamp" key. Rows with equal `ts` come in an unspecified order, as in SQLite.
- Database.LeadStore: each function of the module opens and closes its own connection. The model is one object whose state persists between calls. Concurrent writers are not modelled.
- Frontend.Widget: the DOM is reduced to the visibility, text and disabled state of the widget's parts. A missing video element, the CSS opacity, the remote video's media stream and `call.destroy()` are not modelled. Each asynchronous callback is a separate method, so interleavings of callbacks are not modelled.
- The remaining PHP of the assistant plugin (admin pages, script registration, activation hooks) is not part of this model.

## Findings

| source | as written | input that shows it | evidently intended | confidence | as-written member | corrected member |
|---|---|---|---|---|---|---|
| broadgate_ai_assistant/assets/js/broadgate-frontend.js:134-138 | `extractUrl` searches `top.raw` (the API's raw response) before the `conversation_url` the server normalized into its result | the API answers 200 with `{"data":{"conversation_url":"https://x"}}`; the server returns `conversation_url` "https://x", but the script finds no URL at the raw response's top level and shows "No conversation URL returned by API." | use the server's `conversation_url` first | not executed | EndToEnd.NestedUrlLostAsWritten | EndToEnd.EveryCreatedConversationStartsACall |
| utils/api.py:116 | `data.get("data", data if isinstance(data, list) else [])` looks up `.get` on the body before evaluating the fallback | a 200 JSON response whose body is a list of messages raises `AttributeError` instead of returning the list, so the extraction run stops before the webhook and the table | return a list body as the message list | not executed | Extraction.ListBodyStopsThePipeline | Extraction.ListBodyTranscript |
