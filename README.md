# Forum scraping and text cleaning, modelled in Dafny

The pipeline has two stages:

- **Scraping.** It downloads the forum pages of a Thai medical Q&A site and turns each forum object into a flat five-field record (`extract_forum_info`). It keeps only the records of the pages that load (`fetch_page`) and concatenates the pages in order (`scrape_all_pages`).
- **Cleaning.** Before indexing, `clean_text` cleans three text fields of every record (`process_text`). The template `build_rag_context` then renders a record as the context passed to a language model.

This project models both stages as Dafny functions, one loop method and lemmas over them.

Modules:

- `Text` holds the character classes (`CharClasses`: Python's `\w` and `\s`, given as parameters), `str.strip()`, `str.join` and a line splitter.
- `Json` holds the JSON values the scraper reads, `dict.get` and Python truth testing.
- `Forum` holds the five-field record and its dictionary form.
- `TextCleaner` holds `clean_text` as its chain of passes, with:
  - the shape every output has;
  - idempotence;
  - the unit-test inputs.
- `WebScraping` holds `extract_forum_info`, the page mapping of `fetch_page`, the 177 page URLs and the flatten of `scrape_all_pages`.
- `DataProcessing` holds `process_text` (a method with a loop) and `build_rag_context`.

## Model

| member | source | states |
|---|---|---|
| TextCleaner.CleanString | src/llm_chatbot_backend/pipelines/data_processing/nodes.py:16-23 | the chain of passes never lengthens its input; its properties are stated by `CleanStringIsClean`, `CleanStringIdempotent` and `CleanStringOfClean` |
| TextCleaner.DropUrls | src/llm_chatbot_backend/pipelines/data_processing/nodes.py:16 | the URL pass never lengthens its input; its meaning is stated by `DropUrlsFirst`, `DropUrlsPrefix`, `DropUrlsIdentity` and `DropUrlsMembers` |
| TextCleaner.KeepAllowed | src/llm_chatbot_backend/pipelines/data_processing/nodes.py:17-19 | the filter never lengthens its input; what it keeps is stated by `KeepAllowedMembers`, `KeepAllowedConcat` and `KeepAllowedIdentity` |
| TextCleaner.CollapseSpaces | src/llm_chatbot_backend/pipelines/data_processing/nodes.py:20 | the result is empty exactly when the input is; it starts with the input's first character, or with `' '` when that character is whitespace; the rest is stated by `CollapseSpacesText` and `CollapseSpacesRun`, which together fix the result on every input, and by `CollapseSpacesShape` and `CollapseSpacesKeepsText` |
| TextCleaner.CollapseRepeats | src/llm_chatbot_backend/pipelines/data_processing/nodes.py:21 | the first two characters are kept and the result is never longer; the rest is stated by `CollapseRepeatsRun` and `CollapseRepeatsShape` |
| Text.Strip | src/llm_chatbot_backend/pipelines/data_processing/nodes.py:23 | the result has no whitespace at either end and is never longer; the rest is stated by `StripIsPadded` and `StripOfStripped` |
| TextCleaner.CleanText | src/llm_chatbot_backend/pipelines/data_processing/nodes.py:13-14 | anything that is not a string, `None` included, cleans to `""` |
| TextCleaner.CleanTextIsClean | src/llm_chatbot_backend/pipelines/data_processing/nodes.py:10-23 | whatever the input, the output of the modelled chain (NFC omitted) has the cleaned shape (`IsClean`): only allowed characters, no whitespace but single, non-adjacent `' '`, none at either end, no `[ก-๙]` character three times in a row |
| TextCleaner.CleanStringIsClean | src/llm_chatbot_backend/pipelines/data_processing/nodes.py:16-23 | the same shape for every string input, composed from the properties of each pass |
| TextCleaner.CleanHasNoScheme | src/llm_chatbot_backend/pipelines/data_processing/nodes.py:16-19 | no `:`, `/` or line feed survives, so neither `http://` nor `https://` occurs in the output |
| TextCleaner.CleanStringIdempotent | src/llm_chatbot_backend/pipelines/data_processing/nodes.py:16-23 | cleaning a cleaned string changes nothing |
| TextCleaner.CleanTextIdempotent | src/llm_chatbot_backend/pipelines/data_processing/nodes.py:10-23 | for the modelled chain (NFC omitted), `clean_text(clean_text(x)) == clean_text(x)` for every input, string or not |
| TextCleaner.CleanStringOfClean | src/llm_chatbot_backend/pipelines/data_processing/nodes.py:16-23 | each pass leaves a string of the cleaned shape alone |
| TextCleaner.DropUrlsIdentity | src/llm_chatbot_backend/pipelines/data_processing/nodes.py:16 | the URL pass changes a string exactly when an `http(s)://` match starts in it |
| TextCleaner.DropUrlsMembers | src/llm_chatbot_backend/pipelines/data_processing/nodes.py:16 | every character of the output occurs in the input |
| TextCleaner.DropUrlsPrefix | src/llm_chatbot_backend/pipelines/data_processing/nodes.py:16 | text in which no match starts is kept as it is, in front of the rest of the output |
| TextCleaner.DropUrlsFirst | src/llm_chatbot_backend/pipelines/data_processing/nodes.py:16 | the leftmost match is removed exactly: the text before it is kept, the whole match (up to the next whitespace or the end) is dropped, and the scan resumes right after it |
| TextCleaner.DropUrlsShortens | src/llm_chatbot_backend/pipelines/data_processing/nodes.py:16 | a string with a URL in it gets strictly shorter |
| TextCleaner.NoColonNoUrl | src/llm_chatbot_backend/pipelines/data_processing/nodes.py:16 | without `:` there is nothing for the URL pattern to match |
| TextCleaner.KeepAllowedMembers | src/llm_chatbot_backend/pipelines/data_processing/nodes.py:17-19 | a character survives the filter if and only if it occurs in the input and is Thai (U+0E00..U+0E7F), `\w`, `\s` or one of `. , ! ? '` |
| TextCleaner.KeepAllowedIdentity | src/llm_chatbot_backend/pipelines/data_processing/nodes.py:17-19 | the filter changes a string exactly when it holds a character outside the class |
| TextCleaner.KeepAllowedConcat | src/llm_chatbot_backend/pipelines/data_processing/nodes.py:17-19 | the filter works character by character and keeps the order of what it keeps |
| TextCleaner.CollapseSpacesShape | src/llm_chatbot_backend/pipelines/data_processing/nodes.py:20 | after collapsing, the only whitespace is `' '`, never twice in a row, and every other character comes from the input |
| TextCleaner.CollapseSpacesText | src/llm_chatbot_backend/pipelines/data_processing/nodes.py:20 | a character that is not whitespace is kept as it is, followed by the collapse of the rest |
| TextCleaner.CollapseSpacesRun | src/llm_chatbot_backend/pipelines/data_processing/nodes.py:20 | a leading run of whitespace, of any length and kind, becomes exactly one `' '` before the collapse of what follows |
| TextCleaner.CollapseSpacesIdentity | src/llm_chatbot_backend/pipelines/data_processing/nodes.py:20 | collapsing changes a string exactly when it holds a whitespace character other than `' '` or two adjacent whitespace characters |
| TextCleaner.CollapseSpacesKeepsText | src/llm_chatbot_backend/pipelines/data_processing/nodes.py:20 | the non-whitespace characters are kept, all of them, in order |
| TextCleaner.CollapseRepeatsShape | src/llm_chatbot_backend/pipelines/data_processing/nodes.py:21 | after the repeat pass no `[ก-๙]` character occurs three times in a row, and every character comes from the input |
| TextCleaner.CollapseRepeatsRun | src/llm_chatbot_backend/pipelines/data_processing/nodes.py:21 | a maximal run of `n` copies of `c` becomes exactly two copies when `c` is in `[ก-๙]` and `n >= 3`, and is untouched otherwise; the rest of the string is treated independently |
| TextCleaner.CollapseRepeatsIdentity | src/llm_chatbot_backend/pipelines/data_processing/nodes.py:21 | the repeat pass changes a string exactly when it holds a run of three |
| TextCleaner.CollapseRepeatsKeepsSpacing | src/llm_chatbot_backend/pipelines/data_processing/nodes.py:20-21 | shortening repeats never makes two whitespace characters adjacent |
| Text.StripIsPadded | src/llm_chatbot_backend/pipelines/data_processing/nodes.py:23 | `str.strip()` removes whitespace only: its result sits in the input between two runs of whitespace |
| Text.StripOfStripped | src/llm_chatbot_backend/pipelines/data_processing/nodes.py:23 | a string with no whitespace at either end is left alone |
| TextCleaner.CleanRepeatedThai | tests/pipelines/data_processing/test_pipeline.py:17 | `"มากกก"` cleans to `"มากก"` |
| TextCleaner.CleanUrlOnly | tests/pipelines/data_processing/test_pipeline.py:18 | `"https://example.com"` cleans to `""` |
| TextCleaner.CleanEmoji | tests/pipelines/data_processing/test_pipeline.py:19 | `"เศร้าา🥲"` cleans to `"เศร้าา"` and not to the `"เศร้า"` the test expects |
| TextCleaner.CleanSpacesOnly | tests/pipelines/data_processing/test_pipeline.py:20 | `"   "` cleans to `""` |
| DataProcessing.CleanRecord | src/llm_chatbot_backend/pipelines/data_processing/nodes.py:30-35 | the cleaned record has the input's keys plus the three text keys. Every other field is copied unchanged. Each text field is the cleaned text of its old value, with `""` when missing |
| DataProcessing.CleanRecordFields | src/llm_chatbot_backend/pipelines/data_processing/nodes.py:32-34 | the three text fields are strings of the cleaned shape, and a missing or non-string field becomes `""` |
| DataProcessing.ProcessText | src/llm_chatbot_backend/pipelines/data_processing/nodes.py:26-37 | one cleaned record per input record, in the same order; none is dropped |
| DataProcessing.CleanRecordIdempotent | src/llm_chatbot_backend/pipelines/data_processing/nodes.py:30-35 | cleaning a record twice is cleaning it once |
| DataProcessing.CleanRecordOfClean | src/llm_chatbot_backend/pipelines/data_processing/nodes.py:30-35 | a record whose three text fields are already clean is copied unchanged |
| DataProcessing.CleanRecordOfScraped | src/llm_chatbot_backend/pipelines/data_processing/nodes.py:30-35 | cleaning the dictionary of a scraped record gives the dictionary of that record with its three texts cleaned: the disease key and the tags stay as they are |
| DataProcessing.CleanWord | src/llm_chatbot_backend/pipelines/data_processing/nodes.py:16-23 | allowed text without whitespace, `:` or long repeats is left as it is |
| DataProcessing.CleanWordSpace | src/llm_chatbot_backend/pipelines/data_processing/nodes.py:16-23 | the same text followed by one space cleans to the text alone |
| DataProcessing.ProcessThaiRecord | src/llm_chatbot_backend/pipelines/data_processing/nodes.py:30-35 | a record of three Thai words, the first two with a trailing space, cleans to the three bare words |
| DataProcessing.ProcessTestRecord | tests/pipelines/data_processing/test_pipeline.py:28-40 | the unit test's record cleans to `"ทดสอบ"`, `"หมอตอบ"` and `"โรค"`, and its tags are copied unchanged |
| DataProcessing.BuildRagContext | src/llm_chatbot_backend/pipelines/data_processing/nodes.py:40-52 | no contract; specified by `ContextLayout`, `ContextMentions` and `CleanedContextLayout` |
| DataProcessing.ContextLines | src/llm_chatbot_backend/pipelines/data_processing/nodes.py:40-52 | no contract; the twelve lines it lists are stated by `ContextLayout` |
| DataProcessing.ContextMentions | src/llm_chatbot_backend/pipelines/data_processing/nodes.py:40-52 | the context contains the four labels, the three texts and every tag, whatever the record holds |
| DataProcessing.ContextLayout | src/llm_chatbot_backend/pipelines/data_processing/nodes.py:40-52 | split at line feeds, the context is exactly the twelve template lines: each label, then its value on the next line, in the order question, answer, disease, tags joined by `", "` (when no value holds a line feed) |
| DataProcessing.CleanedContextLayout | src/llm_chatbot_backend/pipelines/data_processing/nodes.py:23-52 | for a cleaned record whose tags hold no line feed the layout holds, since cleaning removes every line feed from the three texts; the tags are not cleaned, and a stripped tag name can keep an inner line feed |
| DataProcessing.ContextOfTestRecord | tests/pipelines/data_processing/test_pipeline.py:49-60 | the unit test's context holds the answer, disease and tag labels and `"tag1"` |
| Forum.ToJson | src/llm_chatbot_backend/pipelines/web_scraping/nodes.py:39-45 | the record's dictionary has exactly the five keys, each holding its field |
| Forum.FromToJson | src/llm_chatbot_backend/pipelines/web_scraping/nodes.py:39-45 | reading the dictionary back gives the record |
| WebScraping.FirstComment | src/llm_chatbot_backend/pipelines/web_scraping/nodes.py:29 | a falsy comment list gives `""`. A list whose first item is a dictionary gives that item's `content_text`. Nothing else succeeds |
| WebScraping.TagList | src/llm_chatbot_backend/pipelines/web_scraping/nodes.py:32-36 | two lists are concatenated, custom first. Every other pair raises, except two empty strings, which give no tags |
| WebScraping.TextField | src/llm_chatbot_backend/pipelines/web_scraping/nodes.py:27-43 | a text field succeeds exactly when the value, `""` if missing, is a string. The result is the strip of that value |
| WebScraping.ExtractForumInfo | src/llm_chatbot_backend/pipelines/web_scraping/nodes.py:18-26 | an input that is not a dictionary raises |
| WebScraping.ExtractFields | src/llm_chatbot_backend/pipelines/web_scraping/nodes.py:26-45 | when extraction succeeds, the record's five fields are the results of the text fields `content_text`, `disease_key` and `disease_text`, of the reply and of the tags, each read from the `forum` and `doctor_comments` values with their defaults |
| WebScraping.DoctorReply | src/llm_chatbot_backend/pipelines/web_scraping/nodes.py:28-41 | a successful reply is stripped; the rest is stated by `DoctorReplyOk`, `NoCommentsNoReply` and `LaterCommentsIgnored` |
| WebScraping.TagNames | src/llm_chatbot_backend/pipelines/web_scraping/nodes.py:34-38 | never more names than tags; the rest is stated by `TagNamesAreKeptNames`, `TagNamesOk`, `TagNamesStripped` and `TagNamesConcat` |
| WebScraping.Tags | src/llm_chatbot_backend/pipelines/web_scraping/nodes.py:32-38 | no contract; specified by `ExtractTags` and `TagsOk` |
| WebScraping.ExtractIsStripped | src/llm_chatbot_backend/pipelines/web_scraping/nodes.py:35-45 | all four string fields and every tag of an extracted record are stripped |
| WebScraping.ExtractSucceedsIff | src/llm_chatbot_backend/pipelines/web_scraping/nodes.py:26-45 | extraction succeeds exactly on the well-formed inputs, each field's condition stated without reference to the extraction |
| WebScraping.MissingKeysGiveDefaults | src/llm_chatbot_backend/pipelines/web_scraping/nodes.py:26-33 | an object without `forum` and `doctor_comments` extracts to the empty record and does not raise |
| WebScraping.MissingFieldsGiveDefaults | src/llm_chatbot_backend/pipelines/web_scraping/nodes.py:27-33 | a missing text field gives `""`; missing tag lists give no tags |
| WebScraping.NoCommentsNoReply | src/llm_chatbot_backend/pipelines/web_scraping/nodes.py:28-41 | an empty or missing comment list gives the reply `""` |
| WebScraping.LaterCommentsIgnored | src/llm_chatbot_backend/pipelines/web_scraping/nodes.py:29-41 | the reply is the stripped text of the first comment, whatever comments follow |
| WebScraping.DoctorReplyOk | src/llm_chatbot_backend/pipelines/web_scraping/nodes.py:29-41 | the reply succeeds exactly on comment values of the accepted shapes |
| WebScraping.TagNamesOk | src/llm_chatbot_backend/pipelines/web_scraping/nodes.py:34-38 | the tag comprehension raises exactly when one of the tags makes it raise |
| WebScraping.TagNamesStripped | src/llm_chatbot_backend/pipelines/web_scraping/nodes.py:35 | every tag name it returns is stripped |
| WebScraping.TagNamesAreKeptNames | src/llm_chatbot_backend/pipelines/web_scraping/nodes.py:34-38 | the names are the stripped names of exactly the tags whose raw name is a non-empty string, in order, one each (proved equal to a separate filter-then-strip definition) |
| WebScraping.TagNamesConcat | src/llm_chatbot_backend/pipelines/web_scraping/nodes.py:36 | the names of a concatenation are the first part's names followed by the second's |
| WebScraping.TagNamesSplit | src/llm_chatbot_backend/pipelines/web_scraping/nodes.py:36 | when the comprehension succeeds on a concatenation, it succeeds on each part |
| WebScraping.ExtractTags | src/llm_chatbot_backend/pipelines/web_scraping/nodes.py:32-38 | the record's tags are the custom tags' names followed by the default tags' names, at most as many as the two lists hold together |
| WebScraping.TagsOk | src/llm_chatbot_backend/pipelines/web_scraping/nodes.py:32-38 | the tags succeed exactly when the two tag values have an accepted shape |
| WebScraping.BlankTagIsEmpty | src/llm_chatbot_backend/pipelines/web_scraping/nodes.py:35-37 | the filter runs before the strip, so a whitespace-only name gives `""` |
| WebScraping.ExtractFixture | tests/pipelines/web_scraping/test_pipeline.py:27-52 | the test fixture extracts to the expected record |
| WebScraping.MapAllOk | src/llm_chatbot_backend/pipelines/web_scraping/nodes.py:66 | a comprehension whose function may raise succeeds exactly when every item does |
| WebScraping.MapAll | src/llm_chatbot_backend/pipelines/web_scraping/nodes.py:66 | when it succeeds, it gives one result per item, in order |
| WebScraping.ExtractAll | src/llm_chatbot_backend/pipelines/web_scraping/nodes.py:66 | no contract; specified by `MapAllOk` and `MapAll`, of which it is an instance |
| WebScraping.FetchPage | src/llm_chatbot_backend/pipelines/web_scraping/nodes.py:61-69 | a failed request gives `[]`, and records come only from a body that is a dictionary |
| WebScraping.FetchPageMissingKeys | src/llm_chatbot_backend/pipelines/web_scraping/nodes.py:65 | a body lacking `pageProps`, or whose `pageProps` lacks `forums`, gives no records |
| WebScraping.FetchPageForums | src/llm_chatbot_backend/pipelines/web_scraping/nodes.py:65-69 | for any dictionary body whose `pageProps` holds the list `forums` (other keys allowed): if every forum extracts, the page gives one record per forum, in order; if any forum raises, the page gives `[]` |
| WebScraping.FetchFixturePage | tests/pipelines/web_scraping/test_pipeline.py:68-84 | the test's page body gives the fixture record |
| WebScraping.Flatten | src/llm_chatbot_backend/pipelines/web_scraping/nodes.py:79 | no contract; specified by `FlattenAppend`, `FlattenMember` and `FlattenOfEmpties` |
| WebScraping.FlattenAppend | src/llm_chatbot_backend/pipelines/web_scraping/nodes.py:79 | flattening distributes over concatenation, so page order is kept |
| WebScraping.FlattenMember | src/llm_chatbot_backend/pipelines/web_scraping/nodes.py:79 | an item is in the flattened list exactly when it is in one of the lists |
| WebScraping.FlattenOfEmpties | src/llm_chatbot_backend/pipelines/web_scraping/nodes.py:79 | lists that are all empty contribute nothing |
| WebScraping.DecimalRoundTrip | src/llm_chatbot_backend/pipelines/web_scraping/nodes.py:59 | the decimal digits of the page number read back as that number |
| WebScraping.PageUrl | src/llm_chatbot_backend/pipelines/web_scraping/nodes.py:5 | every page URL starts with the base URL up to `page=` |
| WebScraping.PageUrlInjective | src/llm_chatbot_backend/pipelines/web_scraping/nodes.py:59 | different pages are fetched from different URLs |
| WebScraping.PageResults | src/llm_chatbot_backend/pipelines/web_scraping/nodes.py:75-78 | there are 177 results. Result `i` is page `i + 1` fetched from its URL |
| WebScraping.ScrapeAllPages | src/llm_chatbot_backend/pipelines/web_scraping/nodes.py:72-79 | no contract; specified by `ScrapedRecordsComeFromPages`, `ScrapeStartsWithFirstPage`, `AllPagesFailed` and `FailedPageContributesNothing` |
| WebScraping.ScrapedRecordsComeFromPages | src/llm_chatbot_backend/pipelines/web_scraping/nodes.py:75-79 | a record is scraped exactly when some page from 1 to 177 gives it |
| WebScraping.ScrapeStartsWithFirstPage | src/llm_chatbot_backend/pipelines/web_scraping/nodes.py:76-79 | the result is page 1's records followed by those of pages 2 to 177 |
| WebScraping.AllPagesFailed | src/llm_chatbot_backend/pipelines/web_scraping/nodes.py:67-79 | when every request fails, nothing is scraped |
| WebScraping.FailedPageContributesNothing | src/llm_chatbot_backend/pipelines/web_scraping/nodes.py:67-79 | a failed page is skipped: the result is that of the pages before it followed by the pages after it |

## Left out

- CleanString: the Unicode NFC step (data_processing/nodes.py:22) is the identity here, because the normalisation tables are not part of this model. Real NFC can change characters; for example, it decomposes a composition-excluded letter into a base letter plus a combining mark that is not `\w`. Canonical reordering can also break the repeat property: `"ก\u0E48\u0E48\u0E38\u0E48"` passes the repeat pass unchanged, and NFC reorders it to `"ก\u0E38\u0E48\u0E48\u0E48"`. That result holds a run of three, so the real `clean_text` is not idempotent on it. For such inputs the shape and idempotence lemmas are about the chain without NFC.
- DropUrlsMembers: states membership only. The order of what is kept and the exact span removed are stated by `DropUrlsFirst` and `DropUrlsPrefix`.
- The Unicode tables behind `\w` and `\s` are a parameter (`Text.CharClasses`). `Valid()` assumes only what Python's tables give: space and line feed are whitespace, and `:` and `/` are not word characters. `str.strip()` uses the same whitespace test as `\s`, as in CPython.
- The HTTP client, the headers and timeout, `asyncio.Semaphore`, `asyncio.gather` and the error `print` are network I/O and concurrency. They are out of scope. The network is the parameter `fetch` of `WebScraping.ScrapeAllPages`, which maps a URL to a response.
- ExtractForumInfo: every exception kind (`AttributeError`, `KeyError`, `TypeError`) is one outcome, `Raises`. `fetch_page` catches them all alike, so nothing downstream tells them apart.
- JSON numbers are integers only; floats are not modelled. A float would behave like an integer in every use the source makes of a number: a truth test, a copy by `process_text`, and the operations that raise on a number (`.strip()`, `.get`, iteration).
- ProcessText: the items are typed as dictionaries (`map<string, Json>`), so the `TypeError` that `{**item}` raises on an item that is not a dictionary is not modelled. Every record the scraper produces is a dictionary.
- Python dictionaries are Dafny maps, so the key order of a dictionary is not modelled.
- BuildRagContext: the record is typed (`Forum.ForumRecord`), so the `KeyError` on a missing key and the `str()` of non-string values are not modelled. The f-string is written as the `"\n"`-join of its twelve physical lines.
- `embed_forum_data`, the chatbot and UI code, the dataset class, the scheduler and the Kedro pipeline wiring are not part of this model: they wrap a model, a database, files or processes.
- The scraping tests import `get_total_pages`, `fetch_forum_page`, `scrape_forum_page` and `run_scraping_pipeline`, and the data-processing tests import `store_to_chroma`. None of these exists in the source, so none is modelled.
- The code, not the tests, is modelled where the two disagree:
  - The emoji test expects `"เศร้า"`, but the repeat pattern shortens only runs of three or more (`TextCleaner.CleanEmoji`).
  - The empty-reply test expects the record to be dropped, but `process_text` never drops one (`DataProcessing.ProcessText`).
