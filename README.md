# crawl-data, modelled in Dafny

crawl-data is an Electron desktop tool that crawls Reddit search results for a
list of keywords into a local SQLite table of posts, and can republish a
stored post as a topic on a Discourse forum. This project models the decision
logic and string handling inside it and proves what that logic guarantees:

- **Js** (`js.dfy`): the JavaScript string operations the code relies on
  (`trim`, `slice`, `split(sep).join('')`) and an `Option` type.
- **Faults** (`faults.dfy`): the fault model shared by the two browser
  pipelines. A run is a sequence of awaited steps, and `fault` names the
  position of the first step that throws, if any. A run that throws performs
  exactly the steps before that position (`Truncated`).
- **Entities** (`entities.dfy`): the `Posts` and `Keywords` record shapes and
  the two tables as classes over a `map` from id to row.
- **ForumPublisher** (`forum_publisher.dfy`): the `post` handler of
  `index.ts`. It normalises the title, then logs in, fills and submits the
  topic composer. The forum is abstracted as what the handler's element
  queries find (`ForumPage`). The handler's effect is the sequence of browser
  actions it performs, proved equal to a pure script truncated at the fault.
- **KeywordHandlers** (`keyword_handlers.dfy`): the `updateKeyword` and
  `deleteKeyword` handlers.
- **RedditWorker** (`reddit_worker.dfy`): the crawl worker. It covers
  extraction of result cards, derivation of the stored id, the per-keyword
  pipeline with its two-phase save, and the settle-all batch. A search page is
  a sequence of cards plus an id-to-element map. A post page is a map from
  container id to the markup of its first paragraph. The posts table is the
  fold of the save steps over the performed steps (`ApplySaves`).
- **PostsTable** and **KeywordsTable** (`posts_table.dfy`,
  `keywords_table.dfy`): the renderer's cell truncation, the selection state
  of both tables, the 2-keyword cap, and the resolution of selected ids to
  keyword names.
- **Notices** (`notices.dfy`): the success, warning and error toasts the
  tables show.

Behaviour of the code worth noting:

- The short-title padding is joined with no separator. The template
  `` ` ${extra}` `` is trimmed before it is appended, so its leading blank is
  always removed.
- The keyword is appended to the search URL without URL-encoding.
- Pages and browsers are not closed on every exit path. Nothing closes them
  when an awaited step throws, because neither pipeline has a `try/finally`.
  `ForumPublisher.ThrowLeavesBrowserOpen` and
  `RedditWorker.ThrowLeavesBrowserOpen` state this.

## Model

Source paths are relative to the repository root.

| member | source | states |
|---|---|---|
| Entities.PostRepository.Insert | crawl-data/src/main/Worker/redditWorker.ts:54 | saving a new post stores it under a fresh id that was not in the table; nothing else changes |
| Entities.PostRepository.Update | crawl-data/src/main/Worker/redditWorker.ts:70 | saving a post that already has an id overwrites exactly that row |
| Entities.KeywordRepository.FindOne | crawl-data/src/main/index.ts:328 | the lookup finds a row exactly when the id is stored, and the row it finds carries that id |
| Entities.KeywordRepository.Save | crawl-data/src/main/index.ts:337 | saving writes the row under the keyword's own id |
| Entities.KeywordRepository.Delete | crawl-data/src/main/index.ts:358 | deleting removes exactly that id |
| ForumPublisher.NormalizeTitle | crawl-data/src/main/index.ts:216-221 | the result starts with the title; a title of 15 or more characters is used as it is; a shorter one is padded to at most 15 characters |
| ForumPublisher.NormalizeTitleWithoutContent | crawl-data/src/main/index.ts:218 | unset or empty content leaves any title unchanged |
| ForumPublisher.NormalizeTitleAppendsTrimmedContent | crawl-data/src/main/index.ts:218-219 | a short title is followed by the trimmed first (15 minus the title's length) characters of the content, with no separator |
| ForumPublisher.NormalizeTitleLength | crawl-data/src/main/index.ts:218-219 | when the taken slice has no blank at either end, the result's length is the title's length plus the smaller of the content's length and 15 minus the title's length, one fewer than a blank-separated join |
| ForumPublisher.NormalizeTitleAppendsFittingContent | crawl-data/src/main/index.ts:216-221 | content that fits in what a short title lacks, with no white space at either end, is appended exactly as it is, with no blank in between |
| ForumPublisher.NormalizeTitleExample | crawl-data/src/main/index.ts:216-221 | "Hello" with content "World" becomes "HelloWorld": no blank separates the two parts |
| ForumPublisher.OpenForum | crawl-data/src/main/index.ts:223-230 | launch, new page and navigation are performed in order, up to the first that throws |
| ForumPublisher.LogIn | crawl-data/src/main/index.ts:238-253 | the login click, the two fills, Enter and the navigation wait are performed in order, up to the first that throws |
| ForumPublisher.Compose | crawl-data/src/main/index.ts:259-276 | the composer is opened as a new topic and filled with the given title and content, up to the first step that throws |
| ForumPublisher.Choose | crawl-data/src/main/index.ts:281-294 | a present chooser is opened and filtered, and its first item is picked only when there is one; an absent chooser performs nothing |
| ForumPublisher.ChooseAndSubmit | crawl-data/src/main/index.ts:281-313 | category chooser, then tag chooser, then the submit click, up to the first step that throws |
| ForumPublisher.ComposeAndSubmit | crawl-data/src/main/index.ts:257-313 | composing is followed by the choosers and the submit click |
| ForumPublisher.LoggedIn | crawl-data/src/main/index.ts:237-317 | after logging in, the composer is used only when the create-topic button is present |
| ForumPublisher.Publish | crawl-data/src/main/index.ts:207-320 | a missing post returns before any browser action; otherwise the actions performed are the publish script cut at the fault; the exit is the planned one unless a step throws; the browser is left open exactly when a step after the launch throws; the posts table is never written |
| ForumPublisher.ChooserBlockMembers | crawl-data/src/main/index.ts:281-310 | a chooser block holds the opener, the keyword filter and, when there is a first item, the pick, and nothing when the chooser is absent |
| ForumPublisher.ChooseScriptMembers | crawl-data/src/main/index.ts:281-313 | the choosers and the submit click hold exactly the present choosers' openers and keyword filters, the picks of the first items found, and the submit click |
| ForumPublisher.ScriptMembers | crawl-data/src/main/index.ts:223-319 | a run that throws nowhere performs exactly the actions of `Performs`: the opening and the close always, the login form when its button is there, and the composer's share when the create-topic button is there too |
| ForumPublisher.ScriptClosesBrowserOnce | crawl-data/src/main/index.ts:223-319 | a run that throws nowhere starts with the launch and ends with the one close; each occurs exactly once |
| ForumPublisher.ComposeScriptMembers | crawl-data/src/main/index.ts:259-313 | the composer, the choosers and the submit click perform exactly the composer's share of the actions |
| ForumPublisher.LoggedInMembers | crawl-data/src/main/index.ts:238-317 | after the login button is found, the actions are the login form's and, with a create-topic button, the composer's share |
| ForumPublisher.ScriptShape | crawl-data/src/main/index.ts:223-319 | a run that throws nowhere starts with the launch and ends with the close, and no action in between launches or closes a browser |
| ForumPublisher.LoginMissingFillsNothing | crawl-data/src/main/index.ts:237-251 | without a login button nothing is filled, pressed, picked or submitted, and the exit is "login missing" |
| ForumPublisher.CreateTopicMissingComposesNothing | crawl-data/src/main/index.ts:257-319 | without a create-topic button no title, content, filter or submit action happens, and the exit is "create topic missing" |
| ForumPublisher.SubmitReachedIffButtonsPresent | crawl-data/src/main/index.ts:257-313 | submit, the title fill and the content fill happen exactly when both buttons are present, whatever the choosers hold |
| ForumPublisher.FilledTextsAreThePosts | crawl-data/src/main/index.ts:273-276 | the only title filled is the normalised one and the only content filled is the stored content or "" |
| ForumPublisher.SubmitComesLast | crawl-data/src/main/index.ts:313-319 | when submit is clicked, it is the last action before the close |
| ForumPublisher.ChoosersAreBestEffort | crawl-data/src/main/index.ts:281-313 | a category or tag is picked exactly when the composer is reached and that chooser shows a first item; every filter typed is the post's keyword |
| ForumPublisher.ThrowLeavesBrowserOpen | crawl-data/src/main/index.ts:223-320 | when a step after the launch throws, the launch has happened and no close has |
| KeywordHandlers.Decide | crawl-data/src/main/index.ts:326-366 | success exactly when the id is found and no store call throws; a missing id answers "Post not found."; a thrown store call answers the failure message |
| KeywordHandlers.UpdateKeyword | crawl-data/src/main/index.ts:322-345 | on success only the found row's name is replaced; on any failure the table is unchanged |
| KeywordHandlers.DeleteKeyword | crawl-data/src/main/index.ts:347-366 | on success exactly the row with that id is removed; on any failure the table is unchanged |
| RedditWorker.Resolve | crawl-data/src/main/Worker/redditWorker.ts:32-42 | a card resolves exactly when its reference is set, not empty and names an element; the candidate keeps that reference and takes the element's text and link |
| RedditWorker.Extract | crawl-data/src/main/Worker/redditWorker.ts:27-45 | every candidate has a non-empty reference that resolves to its text and link; there are at most as many candidates as cards, and exactly as many when every card resolves |
| RedditWorker.ExtractAppend | crawl-data/src/main/Worker/redditWorker.ts:30-44 | extraction keeps page order: it distributes over splitting the cards |
| RedditWorker.ExtractMembers | crawl-data/src/main/Worker/redditWorker.ts:30-44 | a candidate is extracted exactly when some card resolves to it |
| RedditWorker.DeriveId | crawl-data/src/main/Worker/redditWorker.ts:50 | the stored id always ends with '-' and is at most one character longer than the reference |
| RedditWorker.DeriveIdCutsOccurrence | crawl-data/src/main/Worker/redditWorker.ts:50 | the prefix `search-post-title-` is cut out wherever it first occurs, not only at the start: the text before it is kept as it is and the rest is derived in turn |
| Js.SplitJoinCutsOccurrence | crawl-data/src/main/Worker/redditWorker.ts:50 | `split(sep).join('')` keeps the text before the first occurrence of `sep`, drops that occurrence and goes on with the rest |
| RedditWorker.DeriveIdInnerExample | crawl-data/src/main/Worker/redditWorker.ts:50 | "a-search-post-title-b" gives "a-b-": an occurrence after the start is cut out too |
| RedditWorker.DeriveIdExample | crawl-data/src/main/Worker/redditWorker.ts:50 | "search-post-title-abc123" gives "abc123-" |
| RedditWorker.DeriveIdWithoutPrefix | crawl-data/src/main/Worker/redditWorker.ts:50 | a reference with no occurrence of the prefix only gets the dash |
| RedditWorker.DeriveIdNotIdempotent | crawl-data/src/main/Worker/redditWorker.ts:50 | deriving an id twice never gives the same id |
| RedditWorker.DeriveIdTwiceExample | crawl-data/src/main/Worker/redditWorker.ts:50 | "abc123-" is derived again to "abc123--" |
| RedditWorker.FetchContent | crawl-data/src/main/Worker/redditWorker.ts:63-66 | content is found exactly when the container `id + "post-rtjson-content"` holds a `p`, and it is the trimmed markup of that first paragraph |
| RedditWorker.Metadata | crawl-data/src/main/Worker/redditWorker.ts:48-52 | the first record carries the keyword, the element's text as title, its link and the derived id, and no content |
| RedditWorker.FinalRecord | crawl-data/src/main/Worker/redditWorker.ts:48-71 | the record carries the keyword, the element's text as title, its link and the derived id; it has content exactly when the post page's container holds a `p`, and that content is what was fetched from the page |
| RedditWorker.VisitScriptShape | crawl-data/src/main/Worker/redditWorker.ts:54-73 | a candidate's steps are the first save, opening the post page, the second save exactly when content was found, and closing the page; the second save writes the same id with the content |
| RedditWorker.VisitEffect | crawl-data/src/main/Worker/redditWorker.ts:54-73 | after each prefix of the steps, the table holds nothing new, then the first record, then the record with its content; exactly one row is inserted from the first save on |
| RedditWorker.CandidateTwoPhase | crawl-data/src/main/Worker/redditWorker.ts:54-73 | the content-less record is saved before the post page opens; the second save of the same row happens exactly when content was found; the page is closed last |
| RedditWorker.CandidateBlockEffect | crawl-data/src/main/Worker/redditWorker.ts:54-73 | after each prefix of a candidate's steps, the table holds nothing new, then the content-less record, then the final record; exactly one row is inserted |
| RedditWorker.Visit | crawl-data/src/main/Worker/redditWorker.ts:54-73 | the two-phase write is performed up to the fault, the table is the fold of the saves performed, and a visit that gets through inserts exactly one row |
| RedditWorker.HandleCandidate | crawl-data/src/main/Worker/redditWorker.ts:48-75 | one candidate's steps are performed up to the fault under the next fresh id, the table is the fold of the saves performed, and a candidate that gets through inserts exactly one row |
| RedditWorker.HandleCandidates | crawl-data/src/main/Worker/redditWorker.ts:47-76 | candidates are handled strictly in page order, each under the next fresh id, up to the fault |
| RedditWorker.OpenSearch | crawl-data/src/main/Worker/redditWorker.ts:19-25 | the browser is launched and the search page for the keyword is opened, up to the fault |
| RedditWorker.CloseAll | crawl-data/src/main/Worker/redditWorker.ts:78-79 | the search page and then the browser are closed, up to the fault |
| RedditWorker.ProcessKeyword | crawl-data/src/main/Worker/redditWorker.ts:17-80 | the steps performed are the keyword's script cut at the fault; the promise rejects exactly when a step throws; the table is the fold of the saves performed, so rows saved before a throw stay |
| RedditWorker.KeywordRecords | crawl-data/src/main/Worker/redditWorker.ts:47-76 | a completed run keeps every earlier row and adds one row per candidate under consecutive fresh ids, in page order, each the candidate's final record |
| RedditWorker.CandidatesRecords | crawl-data/src/main/Worker/redditWorker.ts:47-76 | the same for the candidate loop alone |
| RedditWorker.CandidatesNested | crawl-data/src/main/Worker/redditWorker.ts:47-76 | in the candidate loop, each post page is closed before the next is opened |
| RedditWorker.KeywordScriptNested | crawl-data/src/main/Worker/redditWorker.ts:56-78 | at most one post page is open at a time, and all are closed before the search page |
| RedditWorker.CandidatesKeepBrowser | crawl-data/src/main/Worker/redditWorker.ts:47-76 | the candidate loop never closes the browser |
| RedditWorker.ThrowLeavesBrowserOpen | crawl-data/src/main/Worker/redditWorker.ts:17-80 | when a step after the launch throws, the browser was launched and is never closed |
| RedditWorker.SettleAll | crawl-data/src/main/Worker/redditWorker.ts:87-88 | every keyword settles, each as its own fault decides and whatever the others do; each run numbers its rows from where the previous ones stopped; every fulfilled keyword's final records are in the table at the end, at the ids its run gave them, whatever the later keywords did |
| RedditWorker.SettleNext | crawl-data/src/main/Worker/redditWorker.ts:88 | the next keyword's run extends the settled runs and keeps the table equal to their fold; the fulfilled keywords' final records stay in the table |
| RedditWorker.RunWorker | crawl-data/src/main/Worker/redditWorker.ts:83-95 | the status is an error exactly when initialisation fails, and then no keyword runs; otherwise it is "completed" whatever the keywords' outcomes; a missing list counts as empty; every fulfilled keyword's final records are in the table at the end |
| RedditWorker.KeywordSavesFrom | crawl-data/src/main/Worker/redditWorker.ts:47-76 | a keyword's run numbered from a given id saves only rows at that id or above |
| RedditWorker.SavesFromKeep | crawl-data/src/main/Worker/redditWorker.ts:48-71 | steps that save only at or above an id leave every row below it as it was, present or absent |
| RedditWorker.RecordsAtAcross | crawl-data/src/main/Worker/redditWorker.ts:87-88 | final records stored below a run's first id survive that run |
| RedditWorker.KeptAcross | crawl-data/src/main/Worker/redditWorker.ts:87-88 | every fulfilled keyword's final records survive a later run that saves above the stored ids |
| RedditWorker.KeptOneMore | crawl-data/src/main/Worker/redditWorker.ts:87-88 | one more keyword's run keeps every earlier fulfilled keyword's final records and, when it is fulfilled, adds its own |
| RedditWorker.KeywordScriptLength | crawl-data/src/main/Worker/redditWorker.ts:17-80 | a keyword's run has 4 steps plus 3 per candidate and one more per candidate with content, whichever ids its rows receive |
| RedditWorker.KeywordOutcome | crawl-data/src/main/Worker/redditWorker.ts:88 | a keyword's promise rejects exactly when its fault falls within the steps of its run, whichever id its rows start from |
| PostsTable.TruncateString | crawl-data/src/renderer/src/components/PostsTable.tsx:15-20 | a string that fits is unchanged; a longer one becomes its first n characters followed by "...", n + 3 long |
| PostsTable.TruncateStringBounds | crawl-data/src/renderer/src/components/PostsTable.tsx:15-20 | the shown text starts with as much of the string as fits and is at most n + 3 long |
| PostsTable.LinkCell | crawl-data/src/renderer/src/components/PostsTable.tsx:89 | links are cut at 30 characters |
| PostsTable.ContentCell | crawl-data/src/renderer/src/components/PostsTable.tsx:99 | content of at most 50 characters is shown as it is; longer content becomes its first 50 characters followed by "..."; unset content shows as "" |
| PostsTable.RemoveAll | crawl-data/src/renderer/src/components/PostsTable.tsx:73 | filtering an id out removes it and keeps every other id |
| PostsTable.RemoveAllAppend | crawl-data/src/renderer/src/components/PostsTable.tsx:73 | filtering keeps the order of the other ids |
| PostsTable.RemoveAllCounts | crawl-data/src/renderer/src/components/PostsTable.tsx:73 | every occurrence of the id goes, and every other id keeps its count |
| PostsTable.Toggled | crawl-data/src/renderer/src/components/PostsTable.tsx:72-74 | checking appends the id after the unchanged earlier entries; unchecking removes every occurrence and keeps the other ids |
| PostsTable.ToggledShowsChoice | crawl-data/src/renderer/src/components/PostsTable.tsx:69-74 | after a change, that row's checkbox shows what was chosen and every other row's is as before |
| PostsTable.PostSelection.constructor | crawl-data/src/renderer/src/components/PostsTable.tsx:24 | the selection starts empty |
| PostsTable.PostSelection.OnCheckChange | crawl-data/src/renderer/src/components/PostsTable.tsx:72-74 | the selection becomes the toggled one |
| PostsTable.PostSelection.DeleteSelected | crawl-data/src/renderer/src/components/PostsTable.tsx:51-61 | the selection is sent; it is cleared when the request succeeds and kept when it rejects; the notice is "Selected posts deleted successfully!" on success and the error "Failed to delete selected posts." on rejection |
| KeywordsTable.FindName | crawl-data/src/renderer/src/components/KeywordsTable.tsx:58 | a name is found exactly when some row has the id, and it is that row's name |
| KeywordsTable.FindNameFirst | crawl-data/src/renderer/src/components/KeywordsTable.tsx:58 | the first row with the id wins over later duplicates |
| KeywordsTable.ResolveKeywords | crawl-data/src/renderer/src/components/KeywordsTable.tsx:57-59 | at most one name per selected id, and no name is empty |
| KeywordsTable.ResolveKeywordsAppend | crawl-data/src/renderer/src/components/KeywordsTable.tsx:57-59 | names come out in selection order |
| KeywordsTable.ResolveKeywordsMembers | crawl-data/src/renderer/src/components/KeywordsTable.tsx:57-59 | a name is sent exactly when it is non-empty and some selected id finds it |
| KeywordsTable.ResolveKeywordsComplete | crawl-data/src/renderer/src/components/KeywordsTable.tsx:57-59 | nothing is dropped exactly when every selected id finds a non-empty name |
| KeywordsTable.KeywordSelection.constructor | crawl-data/src/renderer/src/components/KeywordsTable.tsx:16 | the selection starts empty, within the cap |
| KeywordsTable.KeywordSelection.OnSelectChange | crawl-data/src/renderer/src/components/KeywordsTable.tsx:96-102 | a new selection is accepted exactly when it has at most 2 keys; a larger one is ignored and answered with the warning "You can only select up to 2 keywords."; the selection never exceeds 2 keys |
| KeywordsTable.KeywordSelection.FetchRedditPosts | crawl-data/src/renderer/src/components/KeywordsTable.tsx:55-76 | no request is sent when no name resolves, and the warning "No valid keywords selected." is shown; otherwise the resolved names are sent, with "Fetching Reddit posts for selected keywords." on success and the error "Failed to fetch Reddit posts." on rejection; the selection is cleared whatever happens |
| KeywordsTable.SubmitRequest | crawl-data/src/renderer/src/components/KeywordsTable.tsx:78-86 | while editing, the edited keyword keeps its id and takes the form's name when given; otherwise a create request carries the form values |

## Left out

- Real browser calls are not modelled. Selectors, navigation, keyboard input and every `sleep`/`setTimeout` delay are foreign I/O or wall-clock timing. Pages are oracle values (`ForumPage`, `Web`). Each modelled browser action or store write is a step that may throw at the fault position.
- The concurrency of `Promise.allSettled` is not modelled. The keywords' runs share one table and are linearised one after the other; interleavings are not covered.
- Electron window lifecycle, IPC registration, spawning the worker thread and its message handlers, and `myWorker.ts` are platform plumbing.
- The commented-out earlier crawler in `index.ts` is dead code.
- The `getAllPosts`, `deletePosts`, `createKeyword` and `getAllKeywords` handlers, and the tables' `fetchData` refresh, are plain store reads and writes outside the modelled decisions.
- The login credentials are not modelled. The two login fills carry no value.
- React rendering, antd components, toasts and console logging are left out. The table methods return the notice they would show, if any, but nothing about its display is modelled.
- Column length limits of the SQLite schema are left out. The database enforces them, not the code.
- Strings are sequences of characters. JavaScript's UTF-16 code units, and what `trim` does with characters outside the whitespace set modelled in `Js.IsWhiteSpace`, are not distinguished.
- RedditWorker.Extract: the element a reference names is assumed to be an anchor. A non-anchor element would give an undefined link, and the model does not represent that.
- Entities.KeywordRepository.FindOne: a call with an undefined id is not modelled; TypeORM may then match an arbitrary row. Ids are always numbers here.
- KeywordsTable.SubmitRequest: a form field that is reported but undefined is treated as absent. The spread would copy `undefined` over the edited name.
- The post lookup (`getRepository` and `findOne`, `crawl-data/src/main/index.ts:208-209`) is not a step that may throw: the post is given or absent. A throw there would leave the same empty trace as a throw at the launch.
- The element queries `page.$(...)` (`crawl-data/src/main/index.ts:234, 257, 281, 289, 297, 305`) are not steps that may throw: their results are the fields of `ForumPage`. A throw in one leaves the same trace as a throw at the next modelled action.
- The search tab `browser.newPage()` and the extraction `page.evaluate` (`crawl-data/src/main/Worker/redditWorker.ts:24, 27`) are not steps of their own: opening the tab and loading the search page form one step, and the extraction is a function of the page. A throw in them leaves the same trace as a throw at the next modelled step.
- RedditWorker.ProcessKeyword: the detail step stands for the new tab, its navigation and the content query together. A throw between them is attributed to that one step.
