# Automatic review of self-media articles

A Dafny model of the article review service of the news management system
(`WemediaNewsAutoScanServiceImpl`). A self-media draft carries a status code:
1 pending scan, 2 rejected, 3 awaiting manual review, 4 manually approved,
8 scheduled, 9 published. The service does four things.

- **Automatic review** (`autoScanByMediaNewsId`). It loads a draft by id and tests its status in order:
  - status 4 publishes the draft;
  - status 8 publishes it once its publish time has come;
  - status 1 extracts the plain text, runs the sensitive-word check, and then rejects the draft (status 2) or queues it for a human (status 3);
  - any other status is left alone.
- **Content extraction** (`handleTextAndImages`). It walks the JSON body, concatenates the `text` segments and collects the `image` segments. It then appends the comma-split cover image list when there is one and the layout type is not 0.
- **Publication** (`saveAppArticle`). It saves the article record, a configuration with fixed default flags and a content record holding the raw body. It then marks the draft published and links it to the new article. Last, it writes a search-index document; an I/O failure of that write is swallowed.
- **Manual decision** (`updateStatus`). It rejects a draft with the administrator's message (type 0) or marks it published (type 1).

Layout of the project:

- `types.dfy` (module `Types`): the records exchanged with the remote services and the status codes.
- `extraction.dfy` (module `Extraction`): the extractor as a loop, proved against the functions `BodyText`, `BodyImages` and `CoverImages`. It also models Java's `String.split(",")`.
- `sensitive.dfy` (module `Sensitive`): the word matcher's assumed meaning and what follows from it for extracted text.
- `review.dfy` (module `Review`): the branch choice of the automatic review as a pure function, and the reason strings.
- `records.dfy` (module `Records`): the article, configuration and index records that publication builds.
- `service.dfy` (module `AutoScan`): the service as a class. Its fields are the remote stores: drafts, users, authors, channels, the sensitive-word table, articles, configurations, contents and the search index. The field `writes` logs every remote write in order. Each operation is a method whose contract states the new store contents and the writes it issued.

Inputs from outside the program are parameters:

- the current time is `now`, in milliseconds;
- the search client's I/O exception is the flag `indexFails`;
- the id the article service gives a new article is the counter `nextArticleId`.

The sensitive-word matcher is not part of this model. Its meaning is an assumption: it reports exactly the non-empty dictionary terms that occur in the text as contiguous substrings, with no normalisation (`Sensitive.MatchWords`).

Behaviour of the code worth noting:

- A manual approval (`updateStatus` with type 1) sets status 9 directly. It does not pass through status 4 and it does not create an article, so such a draft is marked published with no article behind it.
- A rejection's reason is the fixed text "文章存在违禁词，审核失败". It does not name the term found. The check first writes "文章中包含了敏感词" and the review then overwrites it.
- Publication sets the reason to "审核通过". It does not clear it.
- A manual rejection (`updateStatus` with type 0) applies to a draft in any status. A published draft (status 9) goes back to status 2, while its article, configuration, content record and index document all stay.
- There are no compensating deletes. A failure inside publication is left to the distributed-transaction framework, which is not modelled.

## Model

| member | source | states |
|---|---|---|
| Extraction.HandleTextAndImages | leadnews-admin/src/main/java/com/lbc/admin/service/impl/WemediaNewsAutoScanServiceImpl.java:113-144 | An unparsable body gives no result. Otherwise the text is the in-order concatenation of the `text` segment values, and the images are the `image` segment values in body order followed by the split cover list when it is non-null and the layout is not 0. |
| Extraction.BodyTextAppend | leadnews-admin/src/main/java/com/lbc/admin/service/impl/WemediaNewsAutoScanServiceImpl.java:124-132 | Extraction distributes over concatenation of bodies: the text and the images of `a + b` are those of `a` followed by those of `b`. |
| Extraction.OtherSegmentIgnored | leadnews-admin/src/main/java/com/lbc/admin/service/impl/WemediaNewsAutoScanServiceImpl.java:124-132 | Inserting a segment whose type is neither `text` nor `image` anywhere in a body changes neither the text nor the images. |
| Extraction.TextSegmentInBodyText | leadnews-admin/src/main/java/com/lbc/admin/service/impl/WemediaNewsAutoScanServiceImpl.java:125-127 | The value of every `text` segment occurs whole and contiguously in the extracted text. |
| Extraction.BodyImagesMembers | leadnews-admin/src/main/java/com/lbc/admin/service/impl/WemediaNewsAutoScanServiceImpl.java:129-131 | A string is among the body images if and only if some `image` segment has it as its value. |
| Extraction.SplitFieldsJoin | leadnews-admin/src/main/java/com/lbc/admin/service/impl/WemediaNewsAutoScanServiceImpl.java:135 | The comma-separated fields of a string join back with commas to that string, and no field holds a comma. |
| Extraction.JavaSplit | leadnews-admin/src/main/java/com/lbc/admin/service/impl/WemediaNewsAutoScanServiceImpl.java:135 | `split(",")` of a string without a comma is that string alone. Otherwise the parts are a prefix of the comma-separated fields, every field cut off is empty, and the last part kept is not empty. |
| Extraction.JavaSplitFields | leadnews-admin/src/main/java/com/lbc/admin/service/impl/WemediaNewsAutoScanServiceImpl.java:135-136 | `split(",")` yields comma-free parts. When the input does not end with a comma, no field is removed: the parts are all the fields and join back to the input. |
| Sensitive.MatchWords | leadnews-admin/src/main/java/com/lbc/admin/service/impl/WemediaNewsAutoScanServiceImpl.java:157-162 | The assumed meaning of the word matcher: a term is reported if and only if it is a non-empty dictionary term occurring in the text as a contiguous substring. |
| Sensitive.HitInTextSegment | leadnews-admin/src/main/java/com/lbc/admin/service/impl/WemediaNewsAutoScanServiceImpl.java:92-95 | A non-empty dictionary term inside any single `text` segment is reported on the extracted text, so such a draft fails the check. |
| Sensitive.OccursInContext | leadnews-admin/src/main/java/com/lbc/admin/service/impl/WemediaNewsAutoScanServiceImpl.java:161 | A term that occurs in a piece of text also occurs in any text that contains that piece. |
| Sensitive.MatchWordsMonotone | leadnews-admin/src/main/java/com/lbc/admin/service/impl/WemediaNewsAutoScanServiceImpl.java:157-162 | Every term reported on a text with a dictionary is also reported on any text containing it with any larger dictionary: more terms or more text never let a draft pass that failed. |
| Sensitive.NothingMatchesEmptyText | leadnews-admin/src/main/java/com/lbc/admin/service/impl/WemediaNewsAutoScanServiceImpl.java:161-162 | An empty text passes the check whatever the dictionary. |
| Review.ChooseBranch | leadnews-admin/src/main/java/com/lbc/admin/service/impl/WemediaNewsAutoScanServiceImpl.java:72-103 | The review publishes if and only if the status is 4 or the status is 8 with a publish time at or before `now`. It scans if and only if the status is 1. It fails on a null publish time if and only if the status is 8 and the time is null. It does nothing in every other case: another status, or status 8 with a future time. |
| Review.ScanVerdict | leadnews-admin/src/main/java/com/lbc/admin/service/impl/WemediaNewsAutoScanServiceImpl.java:97-101 | A scan ends in status 2 if and only if the matcher reported a term, and in status 3 otherwise; the reason is "文章存在违禁词，审核失败" on a hit and "文章已提交，待人工审核" otherwise. A scan never publishes. |
| Review.ReviewedStatusesAreFinal | leadnews-admin/src/main/java/com/lbc/admin/service/impl/WemediaNewsAutoScanServiceImpl.java:88-101 | The statuses the review writes (2 or 3 after a scan, 9 after publication) make the next review of that draft do nothing. |
| Review.ScheduledPublishIsMonotone | leadnews-admin/src/main/java/com/lbc/admin/service/impl/WemediaNewsAutoScanServiceImpl.java:80 | A scheduled draft is published at `now` if and only if its time is at or before `now`, and then also at every later time. |
| Records.ArticleFor | leadnews-admin/src/main/java/com/lbc/admin/service/impl/WemediaNewsAutoScanServiceImpl.java:271-300 | The article copies title, layout, images and publish time from the draft, with creation time `now`. Author id and name are set if and only if the user exists and an author of that user's name exists, and then they are that author's. Channel id and name are set if and only if the channel exists, and then they are that channel's. |
| Records.IndexDocFor | leadnews-admin/src/main/java/com/lbc/admin/service/impl/WemediaNewsAutoScanServiceImpl.java:217-226 | The index document of a new article carries the article id, its publish time, layout, images, author id and title, and the draft's raw body. |
| AutoScan.PublishedDraft | leadnews-admin/src/main/java/com/lbc/admin/service/impl/WemediaNewsAutoScanServiceImpl.java:213-214 | A published draft has status 9 and reason "审核通过" and is linked to the new article id. Every other field is kept: id, user, channel, title, body, layout, cover images and publish time. |
| AutoScan.WemediaNewsAutoScanService.UpdateWmNews | leadnews-admin/src/main/java/com/lbc/admin/service/impl/WemediaNewsAutoScanServiceImpl.java:190-194 | The draft gets the given status and reason and is written back under its id. That write is the only one logged. |
| AutoScan.WemediaNewsAutoScanService.HandleSensitive | leadnews-admin/src/main/java/com/lbc/admin/service/impl/WemediaNewsAutoScanServiceImpl.java:153-171 | The check passes if and only if the matcher reports nothing. On a hit, the draft is written once with status 2 and reason "文章中包含了敏感词". On a pass, nothing is written. |
| AutoScan.WemediaNewsAutoScanService.SaveArticle | leadnews-admin/src/main/java/com/lbc/admin/service/impl/WemediaNewsAutoScanServiceImpl.java:271-300 | The record saved is `ArticleFor` of the draft. It is stored under the next fresh id, and that one save is logged. |
| AutoScan.WemediaNewsAutoScanService.SaveArticleConfig | leadnews-admin/src/main/java/com/lbc/admin/service/impl/WemediaNewsAutoScanServiceImpl.java:252-261 | The configuration of the article is saved with forward=true, delete=false, down=false, comment=true. |
| AutoScan.WemediaNewsAutoScanService.SaveArticleContent | leadnews-admin/src/main/java/com/lbc/admin/service/impl/WemediaNewsAutoScanServiceImpl.java:241-246 | The content record of the article, holding the draft's raw body, is saved. |
| AutoScan.WemediaNewsAutoScanService.SaveAppArticle | leadnews-admin/src/main/java/com/lbc/admin/service/impl/WemediaNewsAutoScanServiceImpl.java:204-234 | Publication keeps the store invariant: every article has a configuration and a content record, and the index holds only articles. It adds an article under an id not used before, its default configuration and its raw-body content. It then writes the draft with status 9, reason "审核通过" and that article id. It adds the index document unless the index write fails, and the failure undoes nothing. The writes are logged in exactly that order. |
| AutoScan.WemediaNewsAutoScanService.AutoScanByMediaNewsId | leadnews-admin/src/main/java/com/lbc/admin/service/impl/WemediaNewsAutoScanServiceImpl.java:57-104 | A null id, a missing draft, a status outside 1, 4 and due 8, an unparsable body or a status-8 draft with no time leave every store unchanged. Statuses 4 and due 8 publish as `SaveAppArticle` does, with no scan. Status 1 with a hit writes the draft twice and leaves status 2 with reason "文章存在违禁词，审核失败". Status 1 without a hit leaves status 3 with reason "文章已提交，待人工审核". In both status-1 cases no article, configuration, content or index entry is created. |
| AutoScan.WemediaNewsAutoScanService.UpdateStatus | leadnews-admin/src/main/java/com/lbc/admin/service/impl/WemediaNewsAutoScanServiceImpl.java:326-344 | A null request or id gives PARAM_INVALID and no write. A missing draft gives DATA_NOT_EXIST and no write. Otherwise the result is SUCCESS: type 0 writes status 2 with the request's message, type 1 writes status 9 with "人工审核通过", and any other type writes nothing. Articles, configurations, contents and the index never change. |
| AutoScan.ReviewTwice | leadnews-admin/src/main/java/com/lbc/admin/service/impl/WemediaNewsAutoScanServiceImpl.java:57-104 | Once a review has published, rejected or queued a draft, a second review at the same or any later time is ignored and leaves drafts, articles, configurations, contents, the index, the id counter and the write log exactly as the first review left them. |

## Left out

- `findNews` and `findOne`: they only pass a paged query through and attach the file-server address, and carry no review logic.
- The internals of the sensitive-word utility are not part of this model. `Sensitive.MatchWords` is an assumed meaning for it: exact, case-sensitive containment of non-empty terms. It returns the set of terms found, not their occurrence counts, because only emptiness decides the review.
- JSON parsing: the body is given already parsed (`WmNews.body`), and a parse failure is the single outcome `Aborted(BodyNotParsed)`. Segment values are always strings (`Segment.value`), so these paths of the code are not modelled. A segment missing its `type` key throws. An `image` value that is a number, boolean, object or array throws a cast exception, which aborts a status-1 review before any write. An `image` value that is JSON null, or an `image` segment with no `value` key, adds a null image and the review goes on to the sensitive-word check and writes status 2 or 3; a null image cannot be represented here, and the image list is never read. A `text` value that is not a string (a number, an object, or null) is appended to the text as its printed form.
- Null fields are modelled as plain integers, so three paths of the code are not modelled. A null `status` throws on unboxing at the first status test (WemediaNewsAutoScanServiceImpl.java:72), before any write. A null layout `type` throws on unboxing only in the cover-image test of a status-1 draft with non-null images (:134); on the publish path it is copied as null into the article (:274) and the index document (:220) without throwing. A null decision type in `updateStatus` throws on the call `type.equals(0)` (:337), which is reached only after the request and draft checks pass, so a null request or id with a null type still gives PARAM_INVALID and a missing draft still gives DATA_NOT_EXIST.
- Records.ArticleFor: a null user id or channel id on the draft is taken to find no user or channel, so the author or channel fields stay unset. The code passes the null id to the remote user lookup (WemediaNewsAutoScanServiceImpl.java:280) and to the channel query (:292) without testing it, and what those calls do with null (return nothing, or throw and abort the publication) is not part of this model.
- AutoScan.WemediaNewsAutoScanService.UpdateWmNews: the remote draft update (:193) is taken to replace the whole stored draft, null fields included. So `updateStatus` type 0 with a null message stores reason `None`. Whether the remote update skips null fields instead is not part of this model.
- Remote calls to the self-media and article services always succeed in the model. Their failures, and the rollback of the distributed-transaction annotation, are not modelled; the code itself has no compensating deletes. Only the search client's I/O exception is modelled (`indexFails`). Other exceptions from that client would propagate and are not modelled.
- The article id the article service assigns is modelled as a counter of fresh ids.
- The clock is the parameter `now`. The code reads the clock once for the status-8 test and again for the article's creation time; the model uses `now` for both.
- The image list that extraction builds is never scanned in the code (there is no OCR step), so nothing is proved about its use.
- Logging, console output and the index document's id as a string (it is the integer id here).
- Concurrent reviews of the same draft: each method runs alone.
