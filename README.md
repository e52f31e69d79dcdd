# WhatsApp chat export: a Dafny model

This project models the logic of a browser application that opens a WhatsApp
chat export and lets the user read, search, filter, edit and re-export it. An
export is a ZIP holding one transcript `.txt` and the media files. The model
covers each core source file in its own module, and proves what each one
promises.

- **`ZipExtractor`** (`zip_extractor.dfy`) models `src/lib/parser/zip-extractor.ts`. It covers:
  - an archive as a sequence of entries, each with a path and a directory flag, and with its content or a read failure;
  - choosing the transcript by pattern priority;
  - the media-extension test and the extension-to-MIME table;
  - the media-map loop (base-name keys, last write wins, failed entries skipped);
  - the progress values reported along the way.
- **`Timestamps`**, **`LineGrammar`**, **`Classifier`** and **`Parser`** model `src/lib/parser/whatsapp-parser.ts`:
  - `Timestamps` (`timestamp.dfy`) is `parseDate`: day/month disambiguation, two-digit years and the 12-hour clock.
  - `LineGrammar` (`line_grammar.dfy`) hand-codes the line regular expressions as recognisers, with the regex engine's backtracking choices made explicit.
  - `Classifier` (`classifier.dfy`) covers `isSystemMessage`, the first-match `detectMessageType` cascade and the case-insensitive media-name link.
  - `Parser` (`parser.dfy`) covers segmentation into messages (one message in progress at a time), the sender tally, the primary user, outgoing marking, the chat name and the summary fields. It also holds `groupMessagesByDate`.
  - Each loop of `parseWhatsAppChat` is a method proved equal to a fold, and the properties are lemmas about that fold.
- **`ChatViewer`** (`chat_viewer.dfy`) models the logic of `src/components/chat/ChatViewer.tsx`:
  - the outgoing flag and search results as functions;
  - cyclic navigation, the index clamp and the highlighted id;
  - single and global case-insensitive replace;
  - the type and "omitted" filters;
  - delete and edit by id;
  - the sanitised export name.
  - The component's state cells live in a class `Viewer` whose methods are the event handlers.
- **`ChatList`** (`chat_list.dfy`) models `src/components/chat/ChatList.tsx`: the render-item loop (date separators and the sender-label rule) and the backward scan for the sticky date.
- **`ChatExporter`** (`chat_exporter.dfy`) models `src/lib/export/chat-exporter.ts`:
  - the selection filter;
  - the TXT export and the HTML export, which share one day-change loop;
  - HTML escaping, with an inverse;
  - the JSON record shape;
  - the media bundle and the file name of the zip download.
- **Shared modules:**
  - `ChatTypes` (`chat_types.dfy`) holds the entities of `src/types/chat.ts`.
  - `Strings`, `Sequences` and `Options` hold generic helpers (JavaScript `\s`, `trim`, ASCII case folding, `indexOf`, `split`, filters, distinct elements).

**How the model represents the source:**
- A `Map<string, MediaFile>` is a sequence with distinct keys, kept in insertion order.
- An archive is a sequence of entries, so it could list one path twice, which the keys of JSZip's `files` object cannot. For such a sequence, ReadEntry reads the first entry with the path, while CollectMedia visits every entry.
- A string is a sequence of Unicode characters, while JavaScript counts UTF-16 code units. The two agree within the Basic Multilingual Plane. The one place where the source's result depends on the difference is the sanitised export name, which counts code units.
- Timestamps are the component tuple passed to `new Date(...)`, and the day key is the calendar day.
- Message ids are a counter threaded through the parse.
- The locale-dependent texts are function parameters (`Locale`): `toLocaleDateString`, `toLocaleTimeString` and the object URL of a media file.

A dated line whose body mentions a system indicator becomes a `system` message that keeps its sender and is counted in the tally. This follows the code at `src/lib/parser/whatsapp-parser.ts:188-200`. The repository's description of the parser gives every system message the sender `System`, but the code does that only for sender-less lines, and the model follows the code.

## Model

| member | source | states |
|---|---|---|
| Timestamps.ResolveTimestamp | src/lib/parser/whatsapp-parser.ts:62-110 | Day and month are the two date numbers in some order. A first number above 12 is the day. When either number is at most 12, the month is at most 12. Minutes are kept, and missing seconds become 0. |
| Timestamps.ExpandYear | src/lib/parser/whatsapp-parser.ts:84-86 | A year below 100 lands in 1951-2050 with the same last two digits. Other years are unchanged. |
| Timestamps.ClockHour | src/lib/parser/whatsapp-parser.ts:99-106 | With AM/PM, an hour 1-12 becomes 0-23, and the result is 12 or more exactly for PM. Without a meridian the hour is unchanged. |
| Timestamps.DayFirstRoundTrip | src/lib/parser/whatsapp-parser.ts:74-86 | A valid timestamp written day-first with a full year resolves back to itself. |
| Timestamps.MonthFirstRoundTrip | src/lib/parser/whatsapp-parser.ts:74-81 | A month-first date resolves correctly exactly when its day is above 12 or equals the month. Otherwise the day-first default swaps day and month. |
| Timestamps.ShortTwelveHourRoundTrip | src/lib/parser/whatsapp-parser.ts:84-106 | A timestamp in 1951-2050 written with a two-digit year and a 12-hour clock resolves back to itself. |
| LineGrammar.YearLength | src/lib/parser/whatsapp-parser.ts:6 | A run of digits shared by the 2-4 digit year and the 1-2 digit hour is split as the backtracking engine splits it: the longest year that leaves a valid hour. |
| LineGrammar.SenderTail | src/lib/parser/whatsapp-parser.ts:6-8 | The sender is non-empty and colon-free. The body holds no line terminator and does not start with white space. |
| LineGrammar.NoticeTail | src/lib/parser/whatsapp-parser.ts:15-17 | The text of a sender-less line is a non-empty, terminator-free suffix of the line. |
| LineGrammar.MatchMessageLine | src/lib/parser/whatsapp-parser.ts:4-11 | When a sender grammar matches, the sender is non-empty and colon-free, and the body holds no line terminator. |
| LineGrammar.MatchNoticeLine | src/lib/parser/whatsapp-parser.ts:13-18 | When a sender-less grammar matches, the body is non-empty and terminator-free. |
| LineGrammar.BracketedLineRecognised | src/lib/parser/whatsapp-parser.ts:6 | A `[date, time] sender: body` line built from well-formed parts is read back as exactly those parts. |
| LineGrammar.DashedLineRecognised | src/lib/parser/whatsapp-parser.ts:8 | A `date, time - sender: body` line built from well-formed parts is read back as exactly those parts. |
| Classifier.OmittedKind | src/lib/parser/whatsapp-parser.ts:121-128 | An omission always yields a media type. The type is `image` exactly when the text mentions image, sticker or GIF. |
| Classifier.OmissionHasKeyword | src/lib/parser/whatsapp-parser.ts:35-42 | Every omission phrase mentions one of the keywords, so the omission branch always returns. |
| Classifier.AttachedAt | src/lib/parser/whatsapp-parser.ts:21-24 | A match of one family's `<attached:` expression that starts at an index begins with `<attached:` in any case there, and its capture lies after the colon. |
| Classifier.AttachedFrom | src/lib/parser/whatsapp-parser.ts:132 | The leftmost match: the result is a start index at or after the given one where the family's expression matches, no smaller start matches, and there is none only when no start matches. |
| Classifier.AttachedName | src/lib/parser/whatsapp-parser.ts:132-134 | There is a capture exactly when the family's expression matches somewhere. The capture ends with one of the family's extensions and holds no `>`. |
| Classifier.AttachedCapture | src/lib/parser/whatsapp-parser.ts:21-24 | The capture after `\s*` runs to the first `>`, ends with `.` and one of the family's extensions, and holds no `>`. |
| Classifier.AttachedNameOccurs | src/lib/parser/whatsapp-parser.ts:21-24 | The capture occurs in the text closed by a `>`. Before it there is an `<attached:` marker in any case followed by blanks only. |
| Classifier.AttachedMedia | src/lib/parser/whatsapp-parser.ts:131-136 | The index of the first pattern, in list order, whose match succeeded. Every earlier pattern failed. There is none exactly when every pattern failed. |
| Classifier.FirstFamilyWins | src/lib/parser/whatsapp-parser.ts:131-136 | Conversely, a pattern that matches after only failing ones is the one the loop picks. |
| Classifier.AttachedMarker | src/lib/parser/whatsapp-parser.ts:130-136 | The loop gives nothing exactly when no pattern matches. Otherwise it gives the first matching pattern's family and that pattern's capture, an image, video, audio or document name ending with an extension of its family. |
| Classifier.AttachedMarkerFirst | src/lib/parser/whatsapp-parser.ts:130-136 | Stated over the four expressions directly: no marker exactly when none of image, video, audio and document matches. Otherwise the marker is the family of the first one in that order that matches, with its capture. |
| Classifier.AttachedPhotoExample | src/lib/parser/whatsapp-parser.ts:130-136 | The body `<attached: 00000012-PHOTO-2023.jpg>` is an image whose file name is `00000012-PHOTO-2023.jpg`. |
| Classifier.BareNameEnd | src/lib/parser/whatsapp-parser.ts:139 | A match starting at an index exists exactly when a non-empty name run, taken to its maximal end, is followed by a dot and a listed extension. The match then ends after the first extension in list order that follows the dot. |
| Classifier.BareNameAt | src/lib/parser/whatsapp-parser.ts:139 | The bare name at an index exists exactly when the match above does, and is the text up to its end. It occurs in the text there, is made of name characters and dots, and ends with one of the listed extensions. |
| Classifier.BareNameDocxExample | src/lib/parser/whatsapp-parser.ts:139 | In `report.docx` the bare name is `report.doc`, because `doc` comes before `docx` among the alternatives. |
| Classifier.BareNameFrom | src/lib/parser/whatsapp-parser.ts:139-141 | The leftmost bare name: the one found at the smallest start index at or after the given one. There is none only when no start index gives one. |
| Classifier.FileFamily | src/lib/parser/whatsapp-parser.ts:27-32 | A family found for a name is a media type, and one of its extensions ends the name. |
| Classifier.BareNameHasFamily | src/lib/parser/whatsapp-parser.ts:142-146 | Every bare file name falls into some family, so the lookup there always returns. |
| Classifier.DetectMessageType | src/lib/parser/whatsapp-parser.ts:112-150 | The checks run in order and the first that succeeds decides. The type is never `system`, and it is `deleted` exactly when a deleted phrase occurs, with no name. Otherwise an omission gives its keyword's media type with no name. Otherwise an attached marker gives its family and capture. Otherwise a bare name gives its family and the name. The type is `text`, with no name, exactly when all four checks fail. |
| Classifier.ClassifyBody | src/lib/parser/whatsapp-parser.ts:199-203 | The type is `system` exactly when a system indicator matches, and then no media name is kept. Otherwise the result is the cascade's. |
| Classifier.StripDirectory | src/lib/parser/whatsapp-parser.ts:209 | `replace(/^.*\//, '')`: the text after the last `/` of the first line, or the whole name when the first line has no `/`. |
| Classifier.FirstLinked | src/lib/parser/whatsapp-parser.ts:207-212 | The first map entry that links to the reference, with none before it. Absent when no entry links. |
| Classifier.FindMediaFile | src/lib/parser/whatsapp-parser.ts:205-214 | The search loop returns exactly the first linked entry, or nothing. |
| Classifier.SameNameLinks | src/lib/parser/whatsapp-parser.ts:208 | A stored name always links to a reference equal to it. |
| Parser.ClassifyLine | src/lib/parser/whatsapp-parser.ts:174-264 | A line is blank when its trim is empty. It is dated when a sender grammar matches. It is a notice when none matched, it holds no `": "` and a sender-less grammar matches. Otherwise it is a continuation. |
| Parser.LinkedFile | src/lib/parser/whatsapp-parser.ts:205-214 | The attached file is the first map entry, in iteration order, whose key links to the detected name. There is none when there is no name or no entry links. |
| Parser.DatedMessage | src/lib/parser/whatsapp-parser.ts:188-226 | A dated message has the trimmed sender and body, the resolved time and the detected type. Its file is the linked file of the detected name, so none without a name, and any file comes from the map and links to the name. It is not outgoing yet. |
| Parser.NoticeMessage | src/lib/parser/whatsapp-parser.ts:242-253 | A sender-less line gives sender `System`, type `system`, no media and the trimmed text. |
| Parser.LeadingLinesDropped | src/lib/parser/whatsapp-parser.ts:261-264 | Blank and undated lines before the first dated line leave no trace. |
| Parser.ContinuationExtends | src/lib/parser/whatsapp-parser.ts:262-264 | An undated line appends a newline and the untrimmed line to the open message, and changes nothing else. |
| Parser.StepGood | src/lib/parser/whatsapp-parser.ts:174-265 | Each line keeps ids consecutive and attached files drawn from the map, and adds exactly one message for a dated or notice line. |
| Parser.RunGood | src/lib/parser/whatsapp-parser.ts:174-270 | After all lines there is one message per dated or notice line, in input order, with consecutive ids. |
| Parser.CountsAreMessageCounts | src/lib/parser/whatsapp-parser.ts:192-193 | The tally of any name other than `System` is the number of messages it sent. |
| Parser.MaxScan | src/lib/parser/whatsapp-parser.ts:275-281 | The chosen sender's count is at least every other sender's count. The result is absent only when every count is zero. |
| Parser.MaxScanFirst | src/lib/parser/whatsapp-parser.ts:277-280 | Because the comparison is strict, the chosen sender beats every earlier sender. |
| Parser.CurrentUser | src/lib/parser/whatsapp-parser.ts:273-282 | A non-empty hint wins. Otherwise the most active sender is chosen, and with no senders the hint is kept. |
| Parser.MostActiveIsCurrentUser | src/lib/parser/whatsapp-parser.ts:272-282 | Without a hint, a chat with senders has a primary user, who is a sender with the greatest count. |
| Parser.FirstMostActive | src/lib/parser/whatsapp-parser.ts:276-281 | Without a hint, the primary user is the first sender, in order of first appearance, with the greatest count. |
| Parser.PickCurrentUser | src/lib/parser/whatsapp-parser.ts:273-282 | The max-count loop over the tally computes the primary user. |
| Parser.MarkedOutgoing | src/lib/parser/whatsapp-parser.ts:285-287 | A message is outgoing exactly when its sender is the primary user. Nothing else changes. |
| Parser.MarkOutgoing | src/lib/parser/whatsapp-parser.ts:285-287 | The marking loop computes the outgoing-marked messages. |
| Parser.ChatName | src/lib/parser/whatsapp-parser.ts:291-297 | Fewer than two participants give `WhatsApp Chat`, and more than two give `Group Chat (N participants)`. With exactly two: the first participant if it is non-empty and not the primary user; else the second if the first is the primary user and the second is non-empty and not the primary user; else the first participant. So participants `""` and `Bob` with primary user `Bob` give `""`. |
| Parser.ParseProperties | src/lib/parser/whatsapp-parser.ts:299-307 | `messageCount` is the number of messages, which is the number of dated and notice lines. Ids are consecutive. Start and end are the first and last timestamps, or absent for no messages. Participants are distinct and exclude `System`. The media map is passed through. |
| Parser.ParticipantsAreSenders | src/lib/parser/whatsapp-parser.ts:289 | A name is a participant exactly when it is not `System` and some message has it as sender. |
| Parser.RecordSender | src/lib/parser/whatsapp-parser.ts:192-193 | Adding a sender keeps the participant set equal to the distinct senders and each count equal to that sender's occurrences. |
| Parser.OpenDated | src/lib/parser/whatsapp-parser.ts:188-226 | Builds the message record of a dated line. |
| Parser.ProcessLine | src/lib/parser/whatsapp-parser.ts:175-264 | One loop turn performs one step of the segmentation fold and keeps the tally. |
| Parser.ScanLines | src/lib/parser/whatsapp-parser.ts:174-270 | The line loop computes the segmentation fold, with the participant set and the counts matching the senders seen. |
| Parser.ParseWhatsAppChat | src/lib/parser/whatsapp-parser.ts:162-308 | The whole parse equals the assembled fold over the split, classified lines, so ParseProperties applies to its result. |
| Parser.GroupsSpec | src/lib/parser/whatsapp-parser.ts:310-325 | There is one group per distinct day, in order of first appearance. Each group holds exactly that day's messages, in order. |
| Parser.AddKeeps | src/lib/parser/whatsapp-parser.ts:313-319 | Adding one message to the groups keeps the grouping invariant. |
| Parser.GroupMessagesByDate | src/lib/parser/whatsapp-parser.ts:310-325 | The grouping loop computes the groups. |
| ZipExtractor.Extension | src/lib/parser/zip-extractor.ts:24 | The lower-cased text after the last dot, or the whole lower-cased name when it has no dot. |
| ZipExtractor.GetMimeType | src/lib/parser/zip-extractor.ts:23-52 | The type differs from `application/octet-stream` exactly when the lower-cased extension is in the table, and then it is the table's entry. |
| ZipExtractor.ExtensionHasType | src/lib/parser/zip-extractor.ts:11-16 | Every listed media extension has a MIME type. |
| ZipExtractor.TypeHasExtension | src/lib/parser/zip-extractor.ts:25-50 | Every key of the MIME table is a listed media extension. |
| ZipExtractor.MediaHasType | src/lib/parser/zip-extractor.ts:54-57 | A media file name gets a type other than `application/octet-stream`. |
| ZipExtractor.TypedIsMedia | src/lib/parser/zip-extractor.ts:23-57 | A dotted name with a known type is a media file name. Together with MediaHasType, the two tests agree. |
| ZipExtractor.TextAndZipAreNotMedia | src/lib/parser/zip-extractor.ts:54-57 | Names ending in `.txt` or `.zip`, in any case, are not media. |
| ZipExtractor.BaseName | src/lib/parser/zip-extractor.ts:63 | The base name is a slash-free suffix of the path. |
| ZipExtractor.BaseNameAfterSlash | src/lib/parser/zip-extractor.ts:63 | With the suffix being slash-free, a base name shorter than the path is preceded by a `/`. So it is the text after the last `/`, or the whole path when the path has no `/`. |
| ZipExtractor.PatternsEndInTxt | src/lib/parser/zip-extractor.ts:4-9 | Each transcript pattern accepts only names ending in `.txt`. |
| ZipExtractor.FindFrom | src/lib/parser/zip-extractor.ts:59-70 | The search is pattern-major: the first matching pattern and, within it, the first matching name. No earlier pattern matches any name. |
| ZipExtractor.FindChatFile | src/lib/parser/zip-extractor.ts:59-70 | The chosen transcript is one of the full paths, and its base name ends in `.txt`. |
| ZipExtractor.FindChatFileNone | src/lib/parser/zip-extractor.ts:59-70 | There is no transcript exactly when no base name ends in `.txt`. |
| ZipExtractor.FindChatFileChoice | src/lib/parser/zip-extractor.ts:61-66 | A name that matches a pattern loses only to a name matching an earlier pattern, or to an earlier name matching the same pattern. |
| ZipExtractor.MediaKeyIsBaseName | src/lib/parser/zip-extractor.ts:125 | A media name's key is its base name and holds no `/`. |
| ZipExtractor.FileOf | src/lib/parser/zip-extractor.ts:125-133 | The stored file is named after the key, typed by it, and holds the entry's content. |
| ZipExtractor.MediaFold | src/lib/parser/zip-extractor.ts:120-149 | The media map built by the loop has distinct keys. |
| ZipExtractor.MediaFoldLookup | src/lib/parser/zip-extractor.ts:120-149 | Looking up a key gives the file of the last stored entry with that key. Directories and failed reads leave no trace. |
| ZipExtractor.MediaFoldKeys | src/lib/parser/zip-extractor.ts:123-137 | Every stored file has a slash-free name and comes from a stored entry. |
| ZipExtractor.MediaReports | src/lib/parser/zip-extractor.ts:143-148 | The loop reports once per media entry, skipped or not, with value 30 + processed/total*50. |
| ZipExtractor.ProgressBounds | src/lib/parser/zip-extractor.ts:143-148 | The loop's reports never decrease, stay above 30 and at most 80, and end at 80. |
| ZipExtractor.ProgressMonotone | src/lib/parser/zip-extractor.ts:146 | More processed entries never report less progress. |
| ZipExtractor.ReadEntry | src/lib/parser/zip-extractor.ts:104-105 | Reading a path gives the content of the first entry with that path. Nothing is read when no entry has the path or that entry cannot be read. |
| ZipExtractor.ExtractSpecProperties | src/lib/parser/zip-extractor.ts:72-161 | Extraction fails for lack of a transcript exactly when no base name ends in `.txt`. It fails as unreadable exactly when a transcript is chosen but reading it gives nothing. On success, a key lookup gives the last stored media entry with that key. |
| ZipExtractor.ExtractedMedia | src/lib/parser/zip-extractor.ts:113-149 | On success every map entry is the file of some stored, media-named entry, under a slash-free key. Keys are distinct. |
| ZipExtractor.FramedProgress | src/lib/parser/zip-extractor.ts:76-155 | The fixed reports 0, 10, 20, 30 and 100 around the loop's reports keep the sequence non-decreasing and within 0-100. |
| ZipExtractor.ExtractProgress | src/lib/parser/zip-extractor.ts:76-155 | Every run reports 0 first and never reports a decrease, and every value lies in 0-100. |
| ZipExtractor.CollectMedia | src/lib/parser/zip-extractor.ts:117-149 | The media loop computes the media map and the progress reports. |
| ZipExtractor.ExtractZipFile | src/lib/parser/zip-extractor.ts:72-161 | The whole extraction computes the outcome and progress trace described above. |
| ChatViewer.ProcessedMessages | src/components/chat/ChatViewer.tsx:44-49 | Each message is outgoing exactly when its sender is the chosen user. Every other field is unchanged. |
| ChatViewer.Hits | src/components/chat/ChatViewer.tsx:57-62 | The ascending indices of exactly the messages whose content or sender contains the query, ignoring case. |
| ChatViewer.SearchResults | src/components/chat/ChatViewer.tsx:51-65 | An empty query gives no results. Otherwise the results are exactly the hits, ascending and in range. |
| ChatViewer.HitsIgnoreOutgoing | src/components/chat/ChatViewer.tsx:44-65 | Recomputing the outgoing flag does not change which messages are hits. |
| ChatViewer.Search | src/components/chat/ChatViewer.tsx:51-65 | The push loop computes the search results. |
| ChatViewer.NavigationInRange | src/components/chat/ChatViewer.tsx:77-85 | With results, next and prev stay within range. |
| ChatViewer.NextPrevInverse | src/components/chat/ChatViewer.tsx:77-85 | Next then prev, and prev then next, restore the index. |
| ChatViewer.NextCycles | src/components/chat/ChatViewer.tsx:77-80 | Going next k times from index i lands on (i + k) mod n. |
| ChatViewer.Settled | src/components/chat/ChatViewer.tsx:71-75 | The clamp keeps an in-range index and brings any index into range when there are results. |
| ChatViewer.Highlight | src/components/chat/ChatViewer.tsx:87-91 | An id is highlighted exactly when the index is within the results. It is the id of the message at that result. |
| ChatViewer.HighlightIsHit | src/components/chat/ChatViewer.tsx:87-91 | A highlighted id belongs to a message that matches the query. |
| ChatViewer.SettledHighlight | src/components/chat/ChatViewer.tsx:71-91 | After the clamp, something is highlighted exactly when there are results. |
| ChatViewer.FirstMatch | src/components/chat/ChatViewer.tsx:101-104 | The first case-insensitive occurrence of the query, with none before it. Absent exactly when the query does not occur. |
| ChatViewer.ReplaceFirstCI | src/components/chat/ChatViewer.tsx:101-104 | Only the first case-insensitive occurrence is replaced. Text without one is unchanged. |
| ChatViewer.ReplaceAllCI | src/components/chat/ChatViewer.tsx:117-122 | Text without an occurrence is unchanged. |
| ChatViewer.ReplaceAllByQuery | src/components/chat/ChatViewer.tsx:117-122 | Replacing every occurrence with the query itself changes the text only in letter case. |
| ChatViewer.ReplaceCurrentEffect | src/components/chat/ChatViewer.tsx:93-112 | Replace changes at most the content of the message at the current result, by replacing its first match. The count is unchanged. The index advances exactly when it is not the last result, and otherwise stays. |
| ChatViewer.ReplaceAllMessages | src/components/chat/ChatViewer.tsx:114-128 | Only contents change. A message without a match is identical, and one with a match has every occurrence replaced. The count is unchanged. |
| ChatViewer.MentionsOmittedIff | src/components/chat/ChatViewer.tsx:162-174 | The chain of omitted phrases amounts to the lower-cased content containing `omitted`. |
| ChatViewer.ShownIff | src/components/chat/ChatViewer.tsx:141-177 | A message is dropped exactly when an active toggle hides its type, or the omitted toggle is on and its content mentions `omitted`. |
| ChatViewer.VisibleMessages | src/components/chat/ChatViewer.tsx:138-177 | The filtered list holds exactly the shown messages. |
| ChatViewer.VisibleIsSubsequence | src/components/chat/ChatViewer.tsx:138-177 | The filtered list is an order-preserving subsequence, and with no toggle on it is the whole list. |
| ChatViewer.DeleteMessage | src/components/chat/ChatViewer.tsx:204-216 | Only messages with that id change: they become `deleted` with the fixed text and keep every other field, including the media file. |
| ChatViewer.EditMessage | src/components/chat/ChatViewer.tsx:218-229 | Only messages with that id change, and only in content. |
| ChatViewer.DeleteEditLaws | src/components/chat/ChatViewer.tsx:204-229 | Deleting twice is deleting once. The last of two edits wins. Editing a deleted message to the deleted text changes nothing. |
| ChatViewer.Utf16Length | src/components/chat/ChatViewer.tsx:238 | A string has at least as many UTF-16 code units as characters. |
| ChatViewer.UnderscoreOthers | src/components/chat/ChatViewer.tsx:238 | The replacement has one character per UTF-16 code unit of the name, each an ASCII letter, a digit or `_`. |
| ChatViewer.SanitizedName | src/components/chat/ChatViewer.tsx:238 | The sanitised name has one character per UTF-16 code unit of the name. It uses only lower-case letters, digits and `_`. |
| ChatViewer.SanitizedNameBmp | src/components/chat/ChatViewer.tsx:238 | For a name within the Basic Multilingual Plane, the sanitised name has the same length. `_` marks exactly the characters outside `[A-Za-z0-9]`, and letters are lower-cased. |
| ChatViewer.SanitizedNameEmojiExample | src/components/chat/ChatViewer.tsx:238 | An emoji outside the Basic Multilingual Plane is two code units and becomes two `_`: the name `😀 Fam` gives `___fam`. |
| ChatViewer.SanitizedNameIdempotent | src/components/chat/ChatViewer.tsx:238 | Sanitising a sanitised name changes nothing. |
| ChatViewer.Viewer.constructor | src/components/chat/ChatViewer.tsx:19-30 | The state starts with the chat's messages, the first participant (or empty) as chosen user, an empty query and replacement, no filters and index 0. |
| ChatViewer.Viewer.SetQuery | src/components/chat/ChatViewer.tsx:67-69 | A new query resets the index to 0 and changes no other state. |
| ChatViewer.Viewer.SetDefaultUser | src/components/chat/ChatViewer.tsx:20 | Only the chosen user changes. |
| ChatViewer.Viewer.SetReplaceText | src/components/chat/ChatViewer.tsx:21 | Only the replacement text changes. |
| ChatViewer.Viewer.SetFilters | src/components/chat/ChatViewer.tsx:22-27 | Only the filter toggles change. |
| ChatViewer.Viewer.Settle | src/components/chat/ChatViewer.tsx:71-75 | Only the index changes, to its clamped value. |
| ChatViewer.Viewer.SearchNext | src/components/chat/ChatViewer.tsx:77-80 | Only the index changes, cyclically forward, and not at all with no results. |
| ChatViewer.Viewer.SearchPrev | src/components/chat/ChatViewer.tsx:82-85 | Only the index changes, cyclically backward, and not at all with no results. |
| ChatViewer.Viewer.FindReplace | src/components/chat/ChatViewer.tsx:93-112 | The messages and the index change as ReplaceCurrentEffect describes. No other state changes. |
| ChatViewer.Viewer.FindReplaceAll | src/components/chat/ChatViewer.tsx:114-128 | The messages change as ReplaceAllMessages describes. No other state changes. |
| ChatViewer.Viewer.Delete | src/components/chat/ChatViewer.tsx:204-216 | The messages change as DeleteMessage describes. No other state changes. |
| ChatViewer.Viewer.Edit | src/components/chat/ChatViewer.tsx:218-229 | The messages change as EditMessage describes. No other state changes. |
| ChatList.BuildRenderItems | src/components/chat/ChatList.tsx:30-52 | The item loop computes the flattening fold. |
| ChatList.ItemsFor | src/components/chat/ChatList.tsx:35-48 | A message contributes two items when it starts a day, and one otherwise. |
| ChatList.FlattenIsExpected | src/components/chat/ChatList.tsx:31-49 | The loop's items are, message by message, a separator exactly at a day change, then the message with its sender flag. In a group chat and for a non-system message, the flag is set exactly when the message starts a day or its sender differs from the previous one. |
| ChatList.ExpectedMessages | src/components/chat/ChatList.tsx:35-49 | Every message appears exactly once, in input order. |
| ChatList.ExpectedDates | src/components/chat/ChatList.tsx:36-42 | There is one date item per day change, so there are as many items as messages plus day changes. |
| ChatList.ExpectedFirst | src/components/chat/ChatList.tsx:36-40 | For a non-empty chat, the first item is the first message's date. |
| ChatList.SenderFlagOff | src/components/chat/ChatList.tsx:26-45 | Outside a group chat, and on system messages, no sender is shown. |
| ChatList.NearestDate | src/components/chat/ChatList.tsx:104-110 | The nearest date item at or before an index, with no date item between. Absent only when there is none. |
| ChatList.StickyDate | src/components/chat/ChatList.tsx:95-114 | The backward scan returns the date of the nearest date item at or before the first visible index. |
| ChatList.StickyDateFound | src/components/chat/ChatList.tsx:100-110 | On the items of a non-empty chat the scan always finds a date. |
| ChatExporter.SelectedProperties | src/lib/export/chat-exporter.ts:18-21 | With no id set, or an empty one, every message is exported. Otherwise exactly the selected messages are, in order. |
| ChatExporter.DayFoldIsChunks | src/lib/export/chat-exporter.ts:26-35 | The text loop emits a date line exactly before the first message and at each day change, each followed by the message's text. |
| ChatExporter.MediaLabel | src/lib/export/chat-exporter.ts:48 | The label shows the content, else the media name, else `Media omitted`, in that order, skipping empty values. |
| ChatExporter.TxtHeader | src/lib/export/chat-exporter.ts:23-24 | The output starts with the chat name and a newline, then fifty `=` and two newlines. |
| ChatExporter.TxtLineIsOneLine | src/lib/export/chat-exporter.ts:36-52 | A message whose fields hold no line break becomes exactly one line. |
| ChatExporter.TxtLineShape | src/lib/export/chat-exporter.ts:38-51 | A system line is `time - content`, and a deleted one shows the fixed notice. An included file is appended as `[Media: name]`. Another non-text message shows its label, and plain text appears verbatim. |
| ChatExporter.ExportToTxt | src/lib/export/chat-exporter.ts:15-56 | The TXT export is the header followed by the day-change text of the selected messages. |
| ChatExporter.TxtLines | src/lib/export/chat-exporter.ts:26-53 | The TXT loop emits the day-change text of its messages. |
| ChatExporter.TxtMessage | src/lib/export/chat-exporter.ts:28-52 | One TXT loop turn is one step of the day-change fold. |
| ChatExporter.EscapeIsPerChar | src/lib/export/chat-exporter.ts:234-238 | The chain of four replacements escapes each character by itself, because `&` is replaced first. |
| ChatExporter.EscapeRoundTrip | src/lib/export/chat-exporter.ts:234-238 | Escaping loses nothing: unescaping the result gives back the original. |
| ChatExporter.EscapePlainText | src/lib/export/chat-exporter.ts:234-238 | Text without `&`, `<`, `>` or newline is unchanged. |
| ChatExporter.EscapedHasNoMarkup | src/lib/export/chat-exporter.ts:234-238 | Escaped text holds no newline, and its only `<` and `>` are those of `<br>`. |
| ChatExporter.EscapeKeepsEntities | src/lib/export/chat-exporter.ts:235 | An entity in the input is escaped again, so `&lt;` becomes `&amp;lt;`. |
| ChatExporter.HtmlContentLines | src/lib/export/chat-exporter.ts:234-251 | The first line is the escaped content. A media line follows exactly when a file is included or the type is not text. An included image or video with an object URL gives the picture or the player. Any other included file gives `[type: name]`. A non-text message without an included file gives its label. |
| ChatExporter.HtmlBlockFor | src/lib/export/chat-exporter.ts:217-256 | The class is `system` for system messages, else outgoing or incoming by the flag. The sender appears, unescaped, only on incoming non-system messages. A deleted message shows only the fixed deleted notice. System content is kept raw. Other messages get the content lines above. |
| ChatExporter.HtmlLabelShowsRawContent | src/lib/export/chat-exporter.ts:249-250 | A non-text message with content and no included file shows the content escaped on one line and unescaped inside the label. |
| ChatExporter.HeadFor | src/lib/export/chat-exporter.ts:197-203 | The head shows the chat name, the participants and the exported count. A start or end date appears exactly when the chat has one. |
| ChatExporter.ExportToHtml | src/lib/export/chat-exporter.ts:90-264 | The HTML export is the head and the day-change text of message blocks for the selected messages. |
| ChatExporter.HtmlBlocks | src/lib/export/chat-exporter.ts:207-257 | The HTML loop emits the day-change text of message blocks. |
| ChatExporter.HtmlMessage | src/lib/export/chat-exporter.ts:209-256 | One HTML loop turn is one step of the day-change fold. |
| ChatExporter.JsonRecord | src/lib/export/chat-exporter.ts:72-84 | A record copies id, time, sender, content, the type's name and the outgoing flag. It carries a file, with its name and type, exactly when media is included and the message has one. |
| ChatExporter.ExportToJson | src/lib/export/chat-exporter.ts:58-88 | The summary fields are the chat's, `messageCount` is the number of selected messages, and the records follow the selection in order. |
| ChatExporter.JsonTypeFaithful | src/lib/export/chat-exporter.ts:77 | A record's type string names exactly the message's type. |
| ChatExporter.MediaNames | src/lib/export/chat-exporter.ts:285-290 | The collected names are exactly the media file names of messages that carry one. |
| ChatExporter.Bundled | src/lib/export/chat-exporter.ts:292-298 | The bundle holds only map entries with a wanted name, and every wanted name present in the map. |
| ChatExporter.BundledDistinct | src/lib/export/chat-exporter.ts:292-298 | Distinct wanted names give a bundle without two files of the same name. |
| ChatExporter.ZipName | src/lib/export/chat-exporter.ts:305 | A trailing `.txt`, `.json`, `.html` or `.pdf`, in any case, becomes `.zip`. Any other name is unchanged. |
| ChatExporter.ZipNameOfExport | src/lib/export/chat-exporter.ts:305 | An export name made of a stem and a format extension zips to the stem plus `.zip`. |
| ChatExporter.DownloadZip | src/lib/export/chat-exporter.ts:278-311 | The archive holds the export file first, then the bundled media. Its name is the zip name of the export. |
| ChatExporter.CollectMediaNames | src/lib/export/chat-exporter.ts:284-290 | The set-filling loop yields the distinct media names in first-appearance order. |
| ChatExporter.FetchMedia | src/lib/export/chat-exporter.ts:292-298 | The adding loop yields the bundle. |
| ChatExporter.BundleProperties | src/lib/export/chat-exporter.ts:284-298 | The bundle has no duplicate names. Each of its files is in the map and attached to some message. Every attached file that the map holds under its name is bundled. |
| ChatTypes.TypeNameInjective | src/types/chat.ts:1 | Different message types have different type strings. |
| ChatTypes.MapSet | src/lib/parser/zip-extractor.ts:137 | `Map.set` keeps keys distinct, makes the key map to the new file and leaves other keys alone. |
| ChatTypes.MapSetNew | src/lib/parser/zip-extractor.ts:137 | Setting a key the map lacks appends the entry at the end, so the map keeps insertion order. |
| ChatTypes.MapSetPresent | src/lib/parser/zip-extractor.ts:137 | Setting a key the map holds replaces that entry where it stands, and the order is unchanged. |
| ChatTypes.MapGet | src/lib/export/chat-exporter.ts:294 | `Map.get` finds the file stored under the name, and nothing exactly when no entry has that name. |

## Left out

- **Archive and browser I/O:**
  - JSZip decoding, `file.async`, `Blob`, `URL.createObjectURL`/`revokeObjectURL`, `cleanupMediaUrls`, `downloadFile` and the zip's `generateAsync`.
  - The archive is a sequence of entries, each with a directory flag and its content or a read failure. A media file's bytes are an opaque string, and its object URL comes from `Locale.objectUrl`.
- **`exportToPDF`:** left out, as it only prints the HTML export through a hidden frame.
- **Asynchronous sequencing:** `async`/`await` and the progress callback are left out. Progress is returned as the sequence of reported values.
- **JavaScript `Date`:**
  - Out-of-range months and days are not normalised, and `toISOString` is not modelled. A timestamp is the tuple passed to the constructor, and JSON carries it as is.
  - `toDateString` is the calendar-day triple, and `groupMessagesByDate`'s `new Date(dateStr)` is that key.
  - `toLocaleDateString` and `toLocaleTimeString` are `Locale` parameters.
  - `formatTimestamp` and `formatDate` are locale formatting and are left out.
- **Message ids:** an id is a counter threaded through the parse. The `Date.now()` part of `generateMessageId` is clock input.
- **The MIME record:** `getMimeType` reads a plain object, so a key such as `constructor` would hit a prototype member. The model's table holds only the listed extensions.
- **Case:** case-insensitive tests fold ASCII letters only. Full Unicode case mapping of `toLowerCase`/`toUpperCase` is not modelled.
- **Replacement text:** it is inserted literally. `String.replace` would expand `$&`, `$1` and similar patterns, which the model does not.
- ReplaceAllCI: its own contract states only that text without a match is unchanged. What each replacement does is stated by ReplaceAllByQuery, and by ReplaceAllMessages for the messages.
- **Early return of the pattern loop:** the model computes the match of each of the four `<attached:` expressions, then picks the first that succeeded. The tests have no effects, so this picks what the loop's early return picks.
- **The third message pattern** (`src/lib/parser/whatsapp-parser.ts:10`) is identical to the second, so it adds nothing and is not modelled separately.
- **Serialisation:** `JSON.stringify` layout, the HTML document's fixed markup and style sheet, and the HTML head's markup. HeadFor keeps only the fields the head shows.
- **UI effects:**
  - Layout arithmetic: `estimateSize`, the virtualizer, scrolling and the scroll-to-highlight effect.
  - The React effects are explicit `Viewer` methods (SetQuery resets the index; Settle is the clamp), which the caller runs when those would fire.
- **Audio handling:** `handleAudioEnd` and `handleAudioPlay` drive DOM audio elements and are left out.
- **Blob check:** the `mediaFile.blob` test in `downloadZipFile` always passes for files the extractor stored, so the model bundles every map entry that is found.
- **Unescaped HTML:** the HTML export writes these unescaped:
  - the sender (`src/lib/export/chat-exporter.ts:223`) and system content (`:231`), as HtmlBlockFor states;
  - the image `alt` text (`:243`) and the file name in the `[type: name]` line (`:247`), as HtmlContentLines states;
  - the content inside the label of a non-text message (`:250`), as HtmlLabelShowsRawContent states.

  The model keeps all of these.
- **Other components:** `ChatBubble.tsx`, `ChatSidebar.tsx`, `ChatHeader.tsx`, `Header.tsx`, `PrivacyBadge.tsx`, `UploadZone.tsx`, `DateSeparator.tsx` and `src/pages/Index.tsx` present data or wire components together, and are not part of this model.
