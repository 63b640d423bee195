/** The crawl worker: for every keyword it opens the search page, extracts the
    result cards that resolve to a post link, and for each of them in page
    order saves a metadata-only record, opens the post's page, and saves the
    content as a second write when the page has it.

    The browser is abstracted as what a URL shows (`Web`), and the worker's
    effect as the sequence of awaited steps it performs (`CrawlEvent`). Every
    awaited step can throw; `fault` names the position of the first that does.
    The store is the posts repository.

    Line numbers in this module refer to
    `crawl-data/src/main/Worker/redditWorker.ts`. */
module RedditWorker {
  import opened Js
  import opened Faults
  import opened Entities

  const SearchUrl: string := "https://www.reddit.com/search/?q="

  /** The part of a card's reference that the stored id drops. */
  const TitleIdPrefix: string := "search-post-title-"

  /** Appended to the stored id to name the post's content container. */
  const ContentIdSuffix: string := "post-rtjson-content"

  /** A search result card, with its `aria-labelledby` attribute if it has one. */
  datatype Card = Card(labelledBy: Option<string>)

  /** The element a reference names: its visible text and its link target. */
  datatype Anchor = Anchor(text: string, href: string)

  /** A loaded search page: its result cards in document order, and the
      elements `getElementById` can find. */
  datatype SearchPage = SearchPage(cards: seq<Card>, byId: map<string, Anchor>)

  /** A post found on the search page. */
  datatype Candidate = Candidate(ref: string, text: string, href: string)

  /** A loaded post page: by container id, the inner markup of the first `p`
      inside that container, where there is one. */
  datatype DetailPage = DetailPage(firstParagraph: map<string, string>)

  /** What the browser shows at a URL. */
  datatype Web = Web(search: string -> SearchPage, detail: string -> DetailPage)

  /** The awaited steps of one keyword's pipeline. `OpenDetailPage` stands for
      the new tab, the navigation and the content query together. */
  datatype CrawlEvent =
    | LaunchBrowser
    | OpenSearchPage(url: string)
    | SaveMetadata(id: nat, post: Post)
    | OpenDetailPage(url: string)
    | SaveContent(id: nat, post: Post)
    | CloseDetailPage
    | CloseSearchPage
    | CloseBrowser

  /** How one keyword's promise settles. */
  datatype Settled = Fulfilled | Rejected

  /** The message the worker posts once its batch is over. */
  datatype WorkerStatus = Completed | Failed(message: string)

  // ----- Extraction (lines 27-45) -----

  /** A card resolves when its reference is set, is not empty, and names an
      element. */
  function Resolve(card: Card, byId: map<string, Anchor>): (r: Option<Candidate>)
    ensures r.Some? <==> card.labelledBy.Some? && card.labelledBy.value != "" && card.labelledBy.value in byId
    ensures r.Some? ==> r.value.ref == card.labelledBy.value && byId[r.value.ref] == Anchor(r.value.text, r.value.href)
  {
    match card.labelledBy
    case Some(ref) =>
      if ref != "" && ref in byId then Some(Candidate(ref, byId[ref].text, byId[ref].href)) else None
    case None => None
  }

  /** The cards that resolve, as candidates, in page order. */
  function Extract(cards: seq<Card>, byId: map<string, Anchor>): (r: seq<Candidate>)
    ensures |r| <= |cards|
    ensures forall c :: c in r ==> c.ref != "" && c.ref in byId && byId[c.ref] == Anchor(c.text, c.href)
    ensures |r| == |cards| <==> forall i :: 0 <= i < |cards| ==> Resolve(cards[i], byId).Some?
  {
    if cards == [] then []
    else
      var rest := Extract(cards[1..], byId);
      assert forall i :: 1 <= i < |cards| ==> cards[i] == cards[1..][i - 1];
      match Resolve(cards[0], byId)
      case Some(c) => [c] + rest
      case None => rest
  }

  /** Extraction keeps page order: the candidates of a page split in two are
      those of the first part followed by those of the second. */
  lemma {:induction false} ExtractAppend(a: seq<Card>, b: seq<Card>, byId: map<string, Anchor>)
    ensures Extract(a + b, byId) == Extract(a, byId) + Extract(b, byId)
  {
    if a == [] {
      assert a + b == b;
    } else {
      assert (a + b)[1..] == a[1..] + b;
      ExtractAppend(a[1..], b, byId);
    }
  }

  /** A candidate is extracted exactly when some card resolves to it. */
  lemma {:induction false} ExtractMembers(cards: seq<Card>, byId: map<string, Anchor>, c: Candidate)
    ensures c in Extract(cards, byId) <==> exists i :: 0 <= i < |cards| && Resolve(cards[i], byId) == Some(c)
  {
    if cards != [] {
      ExtractMembers(cards[1..], byId, c);
      if exists i :: 1 <= i < |cards| && Resolve(cards[i], byId) == Some(c) {
        var i :| 1 <= i < |cards| && Resolve(cards[i], byId) == Some(c);
        assert Resolve(cards[1..][i - 1], byId) == Some(c);
      }
      if exists i :: 0 <= i < |cards[1..]| && Resolve(cards[1..][i], byId) == Some(c) {
        var i :| 0 <= i < |cards[1..]| && Resolve(cards[1..][i], byId) == Some(c);
        assert Resolve(cards[i + 1], byId) == Some(c);
      }
    }
  }

  // ----- The stored id (line 50) -----

  /** `ref.split('search-post-title-').join('') + '-'`: every occurrence of the
      prefix is cut out, wherever it stands, and a dash is appended. */
  function DeriveId(ref: string): (r: string)
    ensures |r| > 0 && r[|r| - 1] == '-'
    ensures |r| <= |ref| + 1
  {
    SplitJoin(ref, TitleIdPrefix) + "-"
  }

  /** The prefix is cut out wherever it first occurs, not only at the start:
      what stands before it is kept and the rest is derived as usual. */
  lemma DeriveIdCutsOccurrence(a: string, b: string)
    requires forall k: nat :: k < |a| ==> !StartsAt(TitleIdPrefix, a + TitleIdPrefix + b, k)
    ensures DeriveId(a + TitleIdPrefix + b) == a + DeriveId(b)
  {
    SplitJoinCutsOccurrence(a, TitleIdPrefix, b);
    ConcatAssoc(a, SplitJoin(b, TitleIdPrefix), "-");
  }

  /** Example: `a-search-post-title-b` gives `a-b-`. */
  lemma DeriveIdInnerExample()
    ensures DeriveId("a-search-post-title-b") == "a-b-"
  {
    var s := "a-" + TitleIdPrefix + "b";
    assert s == "a-search-post-title-b";
    assert !StartsAt(TitleIdPrefix, s, 0) by { assert s[0] != TitleIdPrefix[0]; }
    assert !StartsAt(TitleIdPrefix, s, 1) by { assert s[1] != TitleIdPrefix[0]; }
    DeriveIdCutsOccurrence("a-", "b");
    DeriveIdWithoutPrefix("b");
  }

  /** Example: `search-post-title-abc123` gives `abc123-`. */
  lemma DeriveIdExample()
    ensures DeriveId("search-post-title-abc123") == "abc123-"
  {
    var ref := "search-post-title-abc123";
    assert ref[..|TitleIdPrefix|] == TitleIdPrefix;
    assert ref[|TitleIdPrefix|..] == "abc123";
  }

  /** A reference without the prefix only gets the dash. */
  lemma DeriveIdWithoutPrefix(ref: string)
    requires !Occurs(TitleIdPrefix, ref)
    ensures DeriveId(ref) == ref + "-"
  {
    SplitJoinWithoutOccurrence(ref, TitleIdPrefix);
  }

  /** Deriving twice never gives the same id: the removed part is a whole
      number of 18-character prefixes, so the length can never drop back by
      exactly the one added dash. */
  lemma DeriveIdNotIdempotent(ref: string)
    ensures DeriveId(DeriveId(ref)) != DeriveId(ref)
  {
    assert !IsMultiple(1, |TitleIdPrefix|);
  }

  /** `abc123-` is derived again to `abc123--`. */
  lemma DeriveIdTwiceExample()
    ensures DeriveId("abc123-") == "abc123--"
  {
    assert !Occurs(TitleIdPrefix, "abc123-");
    DeriveIdWithoutPrefix("abc123-");
  }

  // ----- Content (lines 63-66) -----

  /** The id of the container holding a post's body. */
  function ContainerId(postId: string): string {
    postId + ContentIdSuffix
  }

  /** The trimmed inner markup of the first paragraph in the post's container,
      or nothing when the page has none. */
  function FetchContent(page: DetailPage, postId: string): (r: Option<string>)
    ensures r.Some? <==> ContainerId(postId) in page.firstParagraph
    ensures r.Some? ==> r.value == Trim(page.firstParagraph[ContainerId(postId)])
  {
    var id := ContainerId(postId);
    if id in page.firstParagraph then Some(Trim(page.firstParagraph[id])) else None
  }

  /** The record first saved for a candidate: no content yet. */
  function Metadata(keyword: string, c: Candidate): (p: Post)
    ensures p.keyword == keyword && p.title == c.text && p.link == c.href
    ensures p.externalId == DeriveId(c.ref) && p.content.None?
  {
    Post(keyword, DeriveId(c.ref), c.text, c.href, None)
  }

  /** The record a two-phase write leaves: `meta` with the content found, or
      `meta` itself when none was. */
  function WithContent(meta: Post, content: Option<string>): Post {
    if content.Some? then meta.(content := content) else meta
  }

  /** The record a candidate ends up as when nothing throws. */
  function FinalRecord(keyword: string, c: Candidate, web: Web): (p: Post)
    ensures p.keyword == keyword && p.title == c.text && p.link == c.href
    ensures p.externalId == DeriveId(c.ref)
    ensures p.content.Some? <==> ContainerId(DeriveId(c.ref)) in web.detail(c.href).firstParagraph
    ensures p.content == FetchContent(web.detail(c.href), DeriveId(c.ref))
  {
    WithContent(Metadata(keyword, c), FetchContent(web.detail(c.href), DeriveId(c.ref)))
  }

  // ----- The pipeline of one keyword (lines 17-80) -----

  /** The steps of the two-phase write of `meta` under `id`: the save, the
      post page at `url`, the second save only when `content` was found, the
      close. */
  function VisitScript(id: nat, meta: Post, url: string, content: Option<string>): seq<CrawlEvent> {
    [SaveMetadata(id, meta), OpenDetailPage(url)]
    + (if content.Some? then [SaveContent(id, WithContent(meta, content))] else [])
    + [CloseDetailPage]
  }

  /** The steps for one candidate stored under `id`. */
  function CandidateScript(keyword: string, c: Candidate, web: Web, id: nat): seq<CrawlEvent> {
    var meta := Metadata(keyword, c);
    VisitScript(id, meta, c.href, FetchContent(web.detail(c.href), meta.externalId))
  }

  /** The steps for the candidates in order, stored under `first`, `first + 1`, ... */
  function CandidatesScript(keyword: string, cs: seq<Candidate>, web: Web, first: nat): seq<CrawlEvent>
    decreases |cs|
  {
    if cs == [] then []
    else CandidatesScript(keyword, cs[..|cs| - 1], web, first) + CandidateScript(keyword, cs[|cs| - 1], web, first + |cs| - 1)
  }

  /** The candidates the search page for a keyword yields. */
  function SearchCandidates(keyword: string, web: Web): seq<Candidate> {
    var page := web.search(SearchUrl + keyword);
    Extract(page.cards, page.byId)
  }

  /** The steps of a keyword's pipeline when nothing throws, its records
      stored from id `first` on. */
  function KeywordScript(keyword: string, web: Web, first: nat): seq<CrawlEvent> {
    OpeningScript(keyword) + CandidatesScript(keyword, SearchCandidates(keyword, web), web, first) + ClosingScript()
  }

  /** Launching the browser and loading the search page. */
  function OpeningScript(keyword: string): seq<CrawlEvent> {
    [LaunchBrowser, OpenSearchPage(SearchUrl + keyword)]
  }

  /** Closing the search page and the browser. */
  function ClosingScript(): seq<CrawlEvent> {
    [CloseSearchPage, CloseBrowser]
  }

  /** The store after one step. */
  function Apply(rows: map<nat, Post>, e: CrawlEvent): map<nat, Post> {
    match e
    case SaveMetadata(id, p) => rows[id := p]
    case SaveContent(id, p) => rows[id := p]
    case _ => rows
  }

  /** The store after the steps, in order. */
  function ApplySaves(rows: map<nat, Post>, events: seq<CrawlEvent>): map<nat, Post>
    decreases |events|
  {
    if events == [] then rows else Apply(ApplySaves(rows, events[..|events| - 1]), events[|events| - 1])
  }

  /** How many new rows the steps insert. */
  function Inserted(events: seq<CrawlEvent>): nat
    decreases |events|
  {
    if events == [] then 0
    else Inserted(events[..|events| - 1]) + if events[|events| - 1].SaveMetadata? then 1 else 0
  }

  lemma {:induction false} ApplySavesAppend(rows: map<nat, Post>, a: seq<CrawlEvent>, b: seq<CrawlEvent>)
    ensures ApplySaves(rows, a + b) == ApplySaves(ApplySaves(rows, a), b)
    ensures Inserted(a + b) == Inserted(a) + Inserted(b)
    decreases |b|
  {
    if b == [] {
      assert a + b == a;
    } else {
      assert (a + b)[..|a + b| - 1] == a + b[..|b| - 1];
      ApplySavesAppend(rows, a, b[..|b| - 1]);
    }
  }

  /** Steps that save nothing leave the store as it was. */
  lemma {:induction false} NoSaves(rows: map<nat, Post>, events: seq<CrawlEvent>)
    requires forall e :: e in events ==> !e.SaveMetadata? && !e.SaveContent?
    ensures ApplySaves(rows, events) == rows && Inserted(events) == 0
    decreases |events|
  {
    if events != [] {
      assert events[|events| - 1] in events;
      NoSaves(rows, events[..|events| - 1]);
    }
  }

  /** The two-phase write: the record is saved without content before the
      post page is opened; a second save of the same row, with the found
      content, happens exactly when the page has content; the page is closed
      last. */
  lemma CandidateTwoPhase(keyword: string, c: Candidate, web: Web, id: nat)
    ensures var s := CandidateScript(keyword, c, web, id);
      var content := FetchContent(web.detail(c.href), DeriveId(c.ref));
      && s[0] == SaveMetadata(id, Metadata(keyword, c)) && s[0].post.content.None?
      && s[1] == OpenDetailPage(c.href)
      && s[|s| - 1] == CloseDetailPage
      && (forall e :: e in s && e.SaveContent? ==> e == SaveContent(id, FinalRecord(keyword, c, web)))
      && (SaveContent(id, FinalRecord(keyword, c, web)) in s <==> content.Some?)
  {
    var meta := Metadata(keyword, c);
    var content := FetchContent(web.detail(c.href), meta.externalId);
    assert WithContent(meta, content) == FinalRecord(keyword, c, web);
    VisitScriptShape(id, meta, c.href, content);
  }

  /** The steps of a two-phase write one by one. */
  lemma VisitScriptShape(id: nat, meta: Post, url: string, content: Option<string>)
    ensures var s := VisitScript(id, meta, url, content);
      && |s| == (if content.Some? then 4 else 3)
      && s[0] == SaveMetadata(id, meta) && s[1] == OpenDetailPage(url) && s[|s| - 1] == CloseDetailPage
      && (content.Some? ==> s[2] == SaveContent(id, WithContent(meta, content)))
      && (forall e :: e in s && e.SaveContent? ==> e == SaveContent(id, WithContent(meta, content)))
      && (SaveContent(id, WithContent(meta, content)) in s <==> content.Some?)
  {
  }

  /** One more step is applied on top of those before it. */
  lemma ApplySavesStep(rows: map<nat, Post>, events: seq<CrawlEvent>, k: nat)
    requires k < |events|
    ensures ApplySaves(rows, events[..k + 1]) == Apply(ApplySaves(rows, events[..k]), events[k])
    ensures Inserted(events[..k + 1]) == Inserted(events[..k]) + if events[k].SaveMetadata? then 1 else 0
  {
    assert events[..k + 1][..k] == events[..k];
  }

  /** What the first `n` steps of a two-phase write leave in the store: the
      first record once it is saved, the final one once the page has been
      closed; one row is inserted from the first step on. */
  lemma VisitEffect(rows: map<nat, Post>, id: nat, meta: Post, url: string, content: Option<string>, n: nat)
    requires n <= |VisitScript(id, meta, url, content)|
    ensures var done := VisitScript(id, meta, url, content)[..n];
      && ApplySaves(rows, done) == (if n == 0 then rows
                                    else if n < 3 then rows[id := meta]
                                    else rows[id := WithContent(meta, content)])
      && Inserted(done) == if n == 0 then 0 else 1
  {
    var block := VisitScript(id, meta, url, content);
    var final := WithContent(meta, content);
    if content.Some? {
      assert block == [SaveMetadata(id, meta), OpenDetailPage(url), SaveContent(id, final), CloseDetailPage];
    } else {
      assert block == [SaveMetadata(id, meta), OpenDetailPage(url), CloseDetailPage];
    }
    TwoPhaseEffect(rows, block, id, meta, final, url, n);
  }

  /** The store after the first `n` steps of a two-phase write given as a
      plain list of steps. */
  lemma TwoPhaseEffect(rows: map<nat, Post>, block: seq<CrawlEvent>, id: nat, meta: Post, final: Post, url: string,
                       n: nat)
    requires || block == [SaveMetadata(id, meta), OpenDetailPage(url), SaveContent(id, final), CloseDetailPage]
             || (block == [SaveMetadata(id, meta), OpenDetailPage(url), CloseDetailPage] && final == meta)
    requires n <= |block|
    ensures ApplySaves(rows, block[..n]) == (if n == 0 then rows
                                             else if n < 3 then rows[id := meta]
                                             else rows[id := final])
    ensures Inserted(block[..n]) == if n == 0 then 0 else 1
  {
    var k := 0;
    assert block[..0] == [];
    while k < n
      invariant k <= n
      invariant ApplySaves(rows, block[..k]) == (if k == 0 then rows else if k < 3 then rows[id := meta] else rows[id := final])
      invariant Inserted(block[..k]) == if k == 0 then 0 else 1
    {
      ApplySavesStep(rows, block, k);
      k := k + 1;
    }
  }

  /** What the first `n` steps for a candidate leave in the store: the
      metadata row once it is saved, the final record once the page has been
      closed. */
  lemma CandidateBlockEffect(rows: map<nat, Post>, keyword: string, c: Candidate, web: Web, id: nat, n: nat)
    requires n <= |CandidateScript(keyword, c, web, id)|
    ensures var done := CandidateScript(keyword, c, web, id)[..n];
      && ApplySaves(rows, done) == (if n == 0 then rows
                                    else if n < 3 then rows[id := Metadata(keyword, c)]
                                    else rows[id := FinalRecord(keyword, c, web)])
      && Inserted(done) == if n == 0 then 0 else 1
  {
    var meta := Metadata(keyword, c);
    var content := FetchContent(web.detail(c.href), meta.externalId);
    assert WithContent(meta, content) == FinalRecord(keyword, c, web);
    VisitEffect(rows, id, meta, c.href, content, n);
  }

  /** Running `block` after `trace`, with the store at `rows0` and the next
      id `id0` beforehand, performed the steps before the fault, reported
      whether it got through, and left the store as those steps' saves. */
  ghost predicate Ran(block: seq<CrawlEvent>, trace: seq<CrawlEvent>, fault: Option<nat>,
                      rows0: map<nat, Post>, id0: nat,
                      next: seq<CrawlEvent>, ok: bool, rows: map<nat, Post>, nextId: nat)
  {
    var done := Truncated(block, Shift(fault, |trace|));
    && next == trace + done
    && (ok <==> !Interrupts(Shift(fault, |trace|), block))
    && rows == ApplySaves(rows0, done)
    && nextId == id0 + Inserted(done)
  }

  /** A two-phase write stopped after `steps`, at the fault or at the end,
      leaves the trace and the store as the truncated script says. */
  lemma VisitStop(rows0: map<nat, Post>, id: nat, meta: Post, url: string, content: Option<string>,
                  trace: seq<CrawlEvent>, fault: Option<nat>, steps: seq<CrawlEvent>, ok: bool,
                  rows: map<nat, Post>, nextId: nat)
    requires var block := VisitScript(id, meta, url, content);
      && |steps| <= |block| && (forall j :: 0 <= j < |steps| ==> steps[j] == block[j])
      && (if |steps| < |block| then fault == Some(|trace| + |steps|)
          else !Interrupts(Shift(fault, |trace|), block))
      && (ok <==> |steps| == |block|)
      && rows == (if steps == [] then rows0
                  else if |steps| < 3 then rows0[id := meta]
                  else rows0[id := WithContent(meta, content)])
      && nextId == id + if steps == [] then 0 else 1
    ensures Ran(VisitScript(id, meta, url, content), trace, fault, rows0, id, trace + steps, ok, rows, nextId)
  {
    var block := VisitScript(id, meta, url, content);
    assert steps == block[..|steps|];
    StopsAt(block, Shift(fault, |trace|), |steps|);
    VisitEffect(rows0, id, meta, url, content, |steps|);
  }

  /** The store and the steps after a block run behind the uninterrupted
      steps `done`. */
  lemma RunOn(rows: map<nat, Post>, trace: seq<CrawlEvent>, done: seq<CrawlEvent>, block: seq<CrawlEvent>,
              fault: Option<nat>, next: seq<CrawlEvent>)
    requires !Interrupts(Shift(fault, |trace|), done)
    requires next == trace + done + Truncated(block, Shift(fault, |trace| + |done|))
    ensures var part := Truncated(block, Shift(fault, |trace| + |done|));
      var all := Truncated(done + block, Shift(fault, |trace|));
      && next == trace + all
      && all == done + part
      && (Interrupts(Shift(fault, |trace|), done + block) <==> Interrupts(Shift(fault, |trace| + |done|), block))
      && ApplySaves(rows, all) == ApplySaves(ApplySaves(rows, done), part)
      && Inserted(all) == Inserted(done) + Inserted(part)
  {
    var part := Truncated(block, Shift(fault, |trace| + |done|));
    Advance(trace, done, block, fault, next);
    assert next == trace + (done + part);
    assert Truncated(done + block, Shift(fault, |trace|)) == next[|trace|..];
    ApplySavesAppend(rows, done, part);
  }

  /** Where a block run behind the uninterrupted steps `done` leaves the run
      of `script`, of which `done + block` is a prefix: stopped inside the
      block, and then inside the script, or with the whole block done. */
  lemma RanAfter(script: seq<CrawlEvent>, init: seq<CrawlEvent>, done: seq<CrawlEvent>, block: seq<CrawlEvent>,
                 trace: seq<CrawlEvent>, fault: Option<nat>, rows0: map<nat, Post>, id0: nat,
                 traceMid: seq<CrawlEvent>, rowsMid: map<nat, Post>, idMid: nat,
                 next: seq<CrawlEvent>, ok: bool, rows: map<nat, Post>, nextId: nat)
    requires init == done + block && init <= script
    requires Ran(done, trace, fault, rows0, id0, traceMid, true, rowsMid, idMid)
    requires Ran(block, traceMid, fault, rowsMid, idMid, next, ok, rows, nextId)
    ensures ok ==> Ran(done + block, trace, fault, rows0, id0, next, true, rows, nextId)
    ensures !ok ==> Ran(script, trace, fault, rows0, id0, next, false, rows, nextId)
  {
    var f := Shift(fault, |trace|);
    assert traceMid == trace + done;
    ShiftTwice(fault, |trace|, |done|);
    RunOn(rows0, trace, done, block, fault, next);
    if !ok {
      InterruptedPrefix(done + block, script, f);
    }
  }

  /** Lines 54-73: save `meta` as a new row, open the post page at `url`,
      save the row again with the content when some was found, close the
      page. */
  method Visit(repo: PostRepository, meta: Post, url: string, content: Option<string>,
               trace: seq<CrawlEvent>, fault: Option<nat>)
    returns (next: seq<CrawlEvent>, ok: bool)
    requires repo.Valid()
    modifies repo
    ensures repo.Valid()
    ensures Ran(VisitScript(old(repo.nextId), meta, url, content), trace, fault, old(repo.rows), old(repo.nextId),
                next, ok, repo.rows, repo.nextId)
    ensures ok ==> repo.nextId == old(repo.nextId) + 1
  {
    ghost var rows0, id0 := repo.rows, repo.nextId;
    var steps: seq<CrawlEvent> := [];
    ok := false;
    if fault != Some(|trace|) {
      var id := repo.Insert(meta);
      steps := [SaveMetadata(id, meta)];
      if fault != Some(|trace| + 1) {
        steps := steps + [OpenDetailPage(url)];
        if !(content.Some? && fault == Some(|trace| + 2)) {
          if content.Some? {
            var post := meta.(content := content);
            repo.Update(id, post);
            steps := steps + [SaveContent(id, post)];
          }
          if fault != Some(|trace| + |steps|) {
            steps := steps + [CloseDetailPage];
            ok := true;
          }
        }
      }
    }
    next := trace + steps;
    VisitStop(rows0, id0, meta, url, content, trace, fault, steps, ok, repo.rows, repo.nextId);
  }

  /** Lines 48-75 for one candidate: its record is derived from the card,
      its content looked up on its post page, and the two are written in two
      phases. */
  method HandleCandidate(repo: PostRepository, keyword: string, c: Candidate, web: Web,
                         trace: seq<CrawlEvent>, fault: Option<nat>, ghost rows0: map<nat, Post>, ghost id0: nat)
    returns (next: seq<CrawlEvent>, ok: bool)
    requires repo.Valid() && repo.rows == rows0 && repo.nextId == id0
    modifies repo
    ensures repo.Valid()
    ensures Ran(CandidateScript(keyword, c, web, id0), trace, fault, rows0, id0, next, ok, repo.rows, repo.nextId)
    ensures ok ==> repo.nextId == id0 + 1
  {
    var meta := Metadata(keyword, c);
    var content := FetchContent(web.detail(c.href), meta.externalId);
    next, ok := Visit(repo, meta, c.href, content, trace, fault);
  }

  /** The candidates in page order, each through `HandleCandidate`; the first
      step that throws ends the run. */
  method HandleCandidates(repo: PostRepository, keyword: string, cs: seq<Candidate>, web: Web,
                          trace: seq<CrawlEvent>, fault: Option<nat>, ghost rows0: map<nat, Post>, ghost first: nat)
    returns (next: seq<CrawlEvent>, ok: bool)
    requires repo.Valid() && repo.rows == rows0 && repo.nextId == first
    modifies repo
    ensures repo.Valid()
    ensures Ran(CandidatesScript(keyword, cs, web, first), trace, fault, rows0, first, next, ok, repo.rows, repo.nextId)
  {
    ghost var script := CandidatesScript(keyword, cs, web, first);
    ghost var done: seq<CrawlEvent> := [];
    next, ok := trace, true;
    var i := 0;
    while i < |cs|
      invariant 0 <= i <= |cs|
      invariant repo.Valid() && repo.nextId == first + i
      invariant done == CandidatesScript(keyword, cs[..i], web, first)
      invariant Ran(done, trace, fault, rows0, first, next, true, repo.rows, repo.nextId)
    {
      ghost var traceMid, rowsMid, idMid := next, repo.rows, repo.nextId;
      ghost var block := CandidateScript(keyword, cs[i], web, idMid);
      ghost var init := CandidatesScript(keyword, cs[..i + 1], web, first);
      CandidatesScriptSnoc(keyword, cs, web, first, i, idMid);
      CandidatesScriptPrefix(keyword, cs, web, first, i + 1);
      next, ok := HandleCandidate(repo, keyword, cs[i], web, next, fault, rowsMid, idMid);
      RanAfter(script, init, done, block, trace, fault, rows0, first, traceMid, rowsMid, idMid,
               next, ok, repo.rows, repo.nextId);
      if !ok {
        return;
      }
      done := done + block;
      i := i + 1;
    }
    assert cs[..i] == cs;
  }

  /** Launching the browser and loading the keyword's search page. */
  method OpenSearch(keyword: string, trace: seq<CrawlEvent>, fault: Option<nat>)
    returns (next: seq<CrawlEvent>, ok: bool)
    ensures next == trace + Truncated(OpeningScript(keyword), Shift(fault, |trace|))
    ensures ok <==> !Interrupts(Shift(fault, |trace|), OpeningScript(keyword))
  {
    ghost var block, f := OpeningScript(keyword), Shift(fault, |trace|);
    next, ok := Await(trace, LaunchBrowser, fault);
    if !ok { StopsAt(block, f, 0); return; }
    next, ok := Await(next, OpenSearchPage(SearchUrl + keyword), fault);
    if !ok { StopsAt(block, f, 1); return; }
    StopsAt(block, f, 2);
  }

  /** Closing the search page, then the browser. */
  method CloseAll(trace: seq<CrawlEvent>, fault: Option<nat>) returns (next: seq<CrawlEvent>, ok: bool)
    ensures next == trace + Truncated(ClosingScript(), Shift(fault, |trace|))
    ensures ok <==> !Interrupts(Shift(fault, |trace|), ClosingScript())
  {
    ghost var block, f := ClosingScript(), Shift(fault, |trace|);
    next, ok := Await(trace, CloseSearchPage, fault);
    if !ok { StopsAt(block, f, 0); return; }
    next, ok := Await(next, CloseBrowser, fault);
    if !ok { StopsAt(block, f, 1); return; }
    StopsAt(block, f, 2);
  }

  /** A block that saves nothing leaves the store as it was. */
  lemma RanWithoutSaves(block: seq<CrawlEvent>, trace: seq<CrawlEvent>, fault: Option<nat>,
                        rows: map<nat, Post>, id: nat, next: seq<CrawlEvent>, ok: bool)
    requires forall e :: e in block ==> !e.SaveMetadata? && !e.SaveContent?
    requires next == trace + Truncated(block, Shift(fault, |trace|))
    requires ok <==> !Interrupts(Shift(fault, |trace|), block)
    ensures Ran(block, trace, fault, rows, id, next, ok, rows, id)
  {
    NoSaves(rows, Truncated(block, Shift(fault, |trace|)));
  }

  /** A run from the very start is the script cut at the fault itself. */
  lemma RanFromStart(script: seq<CrawlEvent>, fault: Option<nat>, rows0: map<nat, Post>, id0: nat,
                     next: seq<CrawlEvent>, ok: bool, rows: map<nat, Post>, nextId: nat)
    requires Ran(script, [], fault, rows0, id0, next, ok, rows, nextId)
    ensures next == Truncated(script, fault)
    ensures ok <==> !Interrupts(fault, script)
    ensures rows == ApplySaves(rows0, next) && nextId == id0 + Inserted(next)
  {
    assert Shift(fault, 0) == fault;
  }

  /** `processKeyword(keyword)`: the search page, then every candidate in
      page order, then the search page and the browser are closed. A step that
      throws rejects the keyword's promise where it stands: the rows saved so
      far stay, and the open pages and the browser are never closed, since
      nothing closes them on that path. */
  method ProcessKeyword(repo: PostRepository, keyword: string, web: Web, fault: Option<nat>,
                        ghost rows0: map<nat, Post>, ghost id0: nat)
    returns (settled: Settled, events: seq<CrawlEvent>)
    requires repo.Valid() && repo.rows == rows0 && repo.nextId == id0
    modifies repo
    ensures repo.Valid()
    ensures var script := KeywordScript(keyword, web, id0);
      && events == Truncated(script, fault)
      && settled == (if Interrupts(fault, script) then Rejected else Fulfilled)
      && repo.rows == ApplySaves(rows0, events)
      && repo.nextId == id0 + Inserted(events)
  {
    ghost var script := KeywordScript(keyword, web, id0);
    ghost var opening := OpeningScript(keyword);
    ghost var candidates := CandidatesScript(keyword, SearchCandidates(keyword, web), web, id0);
    ghost var closing := ClosingScript();
    var ok;
    settled := Rejected;
    events, ok := OpenSearch(keyword, [], fault);
    RanWithoutSaves(opening, [], fault, rows0, id0, events, ok);
    RanAfter(script, opening, [], opening, [], fault, rows0, id0, [], rows0, id0, events, ok, rows0, id0);
    if !ok {
      RanFromStart(script, fault, rows0, id0, events, ok, rows0, id0);
      return;
    }
    ghost var traceMid := events;
    var page := web.search(SearchUrl + keyword);
    events, ok := HandleCandidates(repo, keyword, Extract(page.cards, page.byId), web, events, fault, rows0, id0);
    RanAfter(script, opening + candidates, opening, candidates, [], fault, rows0, id0, traceMid, rows0, id0,
             events, ok, repo.rows, repo.nextId);
    if !ok {
      RanFromStart(script, fault, rows0, id0, events, ok, repo.rows, repo.nextId);
      return;
    }
    ghost var rowsMid, idMid := repo.rows, repo.nextId;
    traceMid := events;
    events, ok := CloseAll(events, fault);
    RanWithoutSaves(closing, traceMid, fault, rowsMid, idMid, events, ok);
    RanAfter(script, script, opening + candidates, closing, [], fault, rows0, id0, traceMid, rowsMid, idMid,
             events, ok, rowsMid, idMid);
    RanFromStart(script, fault, rows0, id0, events, ok, repo.rows, repo.nextId);
    if ok {
      settled := Fulfilled;
    }
  }

  /** One more candidate adds its own steps at the end. */
  lemma CandidatesScriptSnoc(keyword: string, cs: seq<Candidate>, web: Web, first: nat, i: nat, id: nat)
    requires i < |cs| && id == first + i
    ensures CandidatesScript(keyword, cs[..i + 1], web, first)
         == CandidatesScript(keyword, cs[..i], web, first) + CandidateScript(keyword, cs[i], web, id)
  {
    assert cs[..i + 1][..i] == cs[..i];
  }

  /** The steps of the first `n` candidates come first among the steps of all. */
  lemma {:induction false} CandidatesScriptPrefix(keyword: string, cs: seq<Candidate>, web: Web, first: nat, n: nat)
    requires n <= |cs|
    ensures CandidatesScript(keyword, cs[..n], web, first) <= CandidatesScript(keyword, cs, web, first)
    decreases |cs|
  {
    if n < |cs| {
      assert cs[..|cs| - 1][..n] == cs[..n];
      CandidatesScriptPrefix(keyword, cs[..|cs| - 1], web, first, n);
    } else {
      assert cs[..n] == cs;
    }
  }

  // ----- What a keyword's run leaves behind -----

  /** After a keyword's pipeline has run to the end, the store holds every
      earlier row unchanged and one row per candidate, in page order under
      fresh ids, each the candidate's final record. */
  lemma KeywordRecords(rows: map<nat, Post>, keyword: string, web: Web, first: nat)
    requires forall id :: id in rows ==> id < first
    ensures var after := ApplySaves(rows, KeywordScript(keyword, web, first));
      var cs := SearchCandidates(keyword, web);
      && (forall id :: id in after <==> id in rows || first <= id < first + |cs|)
      && (forall id :: id in rows ==> after[id] == rows[id])
      && (forall j :: 0 <= j < |cs| ==> after[first + j] == FinalRecord(keyword, cs[j], web))
  {
    var cs := SearchCandidates(keyword, web);
    var opening := [LaunchBrowser, OpenSearchPage(SearchUrl + keyword)];
    var body := CandidatesScript(keyword, cs, web, first);
    var closing := [CloseSearchPage, CloseBrowser];
    NoSaves(rows, opening);
    NoSaves(ApplySaves(rows, body), closing);
    ApplySavesAppend(rows, opening, body);
    ApplySavesAppend(rows, opening + body, closing);
    CandidatesRecords(rows, keyword, cs, web, first);
  }

  lemma {:induction false} CandidatesRecords(rows: map<nat, Post>, keyword: string, cs: seq<Candidate>, web: Web, first: nat)
    requires forall id :: id in rows ==> id < first
    ensures var after := ApplySaves(rows, CandidatesScript(keyword, cs, web, first));
      && (forall id :: id in after <==> id in rows || first <= id < first + |cs|)
      && (forall id :: id in rows ==> after[id] == rows[id])
      && (forall j :: 0 <= j < |cs| ==> after[first + j] == FinalRecord(keyword, cs[j], web))
    decreases |cs|
  {
    if cs == [] {
      assert CandidatesScript(keyword, cs, web, first) == [];
    } else {
      var n := |cs| - 1;
      var done := CandidatesScript(keyword, cs[..n], web, first);
      var block := CandidateScript(keyword, cs[n], web, first + n);
      var mid := ApplySaves(rows, done);
      CandidatesRecords(rows, keyword, cs[..n], web, first);
      var all := CandidatesScript(keyword, cs, web, first);
      assert ApplySaves(rows, all) == mid[first + n := FinalRecord(keyword, cs[n], web)] by {
        CandidatesScriptLast(keyword, cs, web, first);
        LastCandidateStored(rows, keyword, cs[n], web, first + n, done, block, all, mid);
      }
      RecordsOneMore(rows, keyword, cs, n, web, first, mid, ApplySaves(rows, all));
    }
  }

  /** The steps for the candidates end with those for the last one. */
  lemma CandidatesScriptLast(keyword: string, cs: seq<Candidate>, web: Web, first: nat)
    requires cs != []
    ensures CandidatesScript(keyword, cs, web, first)
         == CandidatesScript(keyword, cs[..|cs| - 1], web, first) + CandidateScript(keyword, cs[|cs| - 1], web, first + |cs| - 1)
  {
  }

  /** The last candidate's steps put its final record under its id. */
  lemma LastCandidateStored(rows: map<nat, Post>, keyword: string, c: Candidate, web: Web, id: nat,
                            done: seq<CrawlEvent>, block: seq<CrawlEvent>, all: seq<CrawlEvent>, mid: map<nat, Post>)
    requires block == CandidateScript(keyword, c, web, id) && mid == ApplySaves(rows, done) && all == done + block
    ensures ApplySaves(rows, all) == mid[id := FinalRecord(keyword, c, web)]
  {
    ApplySavesAppend(rows, done, block);
    CandidateBlockEffect(mid, keyword, c, web, id, |block|);
    assert block[..|block|] == block;
  }

  /** Adding the last candidate's record to the store for the others gives
      the store for all of them. */
  lemma RecordsOneMore(rows: map<nat, Post>, keyword: string, cs: seq<Candidate>, n: nat, web: Web, first: nat,
                       mid: map<nat, Post>, after: map<nat, Post>)
    requires n + 1 == |cs| && (forall id :: id in rows ==> id < first)
    requires var init := cs[..n];
      && (forall id :: id in mid <==> id in rows || first <= id < first + |init|)
      && (forall id :: id in rows ==> mid[id] == rows[id])
      && (forall j :: 0 <= j < |init| ==> mid[first + j] == FinalRecord(keyword, init[j], web))
    requires after == mid[first + n := FinalRecord(keyword, cs[n], web)]
    ensures forall id :: id in after <==> id in rows || first <= id < first + |cs|
    ensures forall id :: id in rows ==> after[id] == rows[id]
    ensures forall j :: 0 <= j < |cs| ==> after[first + j] == FinalRecord(keyword, cs[j], web)
  {
    forall j | 0 <= j < |cs|
      ensures after[first + j] == FinalRecord(keyword, cs[j], web)
    {
      if j < n {
        assert cs[..n][j] == cs[j];
      }
    }
  }

  /** Replays the steps from a state where a post page is, or is not, open:
      no post page is opened while another is open, none is closed while none
      is open, and none is left open when the search page closes or the run
      ends. */
  predicate DetailPagesNested(events: seq<CrawlEvent>, open: bool)
    decreases |events|
  {
    if events == [] then !open
    else match events[0]
      case OpenDetailPage(_) => !open && DetailPagesNested(events[1..], true)
      case CloseDetailPage => open && DetailPagesNested(events[1..], false)
      case CloseSearchPage => !open && DetailPagesNested(events[1..], false)
      case _ => DetailPagesNested(events[1..], open)
  }

  lemma {:induction false} DetailPagesNestedAppend(a: seq<CrawlEvent>, b: seq<CrawlEvent>, open: bool)
    requires DetailPagesNested(a, open) && DetailPagesNested(b, false)
    ensures DetailPagesNested(a + b, open)
    decreases |a|
  {
    if a == [] {
      assert a + b == b;
    } else {
      assert (a + b)[1..] == a[1..] + b;
      var next := match a[0]
        case OpenDetailPage(_) => true
        case CloseDetailPage => false
        case CloseSearchPage => false
        case _ => open;
      DetailPagesNestedAppend(a[1..], b, next);
    }
  }

  lemma {:induction false} CandidatesNested(keyword: string, cs: seq<Candidate>, web: Web, first: nat)
    ensures DetailPagesNested(CandidatesScript(keyword, cs, web, first), false)
    decreases |cs|
  {
    if cs != [] {
      var n := |cs| - 1;
      CandidatesNested(keyword, cs[..n], web, first);
      var block := CandidateScript(keyword, cs[n], web, first + n);
      assert DetailPagesNested(block, false) by {
        assert DetailPagesNested([CloseDetailPage], true) by {
          assert [CloseDetailPage][1..] == [];
        }
        var meta := Metadata(keyword, cs[n]);
        var content := FetchContent(web.detail(cs[n].href), meta.externalId);
        if content.Some? {
          assert block[1..][1..][1..] == [CloseDetailPage];
        } else {
          assert block[1..][1..] == [CloseDetailPage];
        }
        assert block[1..][1..] == block[2..];
      }
      DetailPagesNestedAppend(CandidatesScript(keyword, cs[..n], web, first), block, false);
    }
  }

  /** One post page at a time: each is closed before the next is opened, and
      all are closed before the search page. */
  lemma KeywordScriptNested(keyword: string, web: Web, first: nat)
    ensures DetailPagesNested(KeywordScript(keyword, web, first), false)
  {
    var cs := SearchCandidates(keyword, web);
    var body := CandidatesScript(keyword, cs, web, first);
    CandidatesNested(keyword, cs, web, first);
    var closing := [CloseSearchPage, CloseBrowser];
    assert DetailPagesNested(closing, false) by {
      assert closing[1..][1..] == [];
    }
    DetailPagesNestedAppend(body, closing, false);
    var opening := [LaunchBrowser, OpenSearchPage(SearchUrl + keyword)];
    assert (opening + (body + closing))[1..][1..] == body + closing;
    assert KeywordScript(keyword, web, first) == opening + (body + closing);
  }

  /** Candidates' steps never close the browser. */
  lemma {:induction false} CandidatesKeepBrowser(keyword: string, cs: seq<Candidate>, web: Web, first: nat)
    ensures CloseBrowser !in CandidatesScript(keyword, cs, web, first)
    decreases |cs|
  {
    if cs != [] {
      CandidatesKeepBrowser(keyword, cs[..|cs| - 1], web, first);
    }
  }

  /** A step that throws after the launch leaves the browser open: nothing on
      that path closes it. */
  lemma ThrowLeavesBrowserOpen(keyword: string, web: Web, first: nat, fault: Option<nat>)
    requires Interrupts(fault, KeywordScript(keyword, web, first)) && fault.value > 0
    ensures LaunchBrowser in Truncated(KeywordScript(keyword, web, first), fault)
    ensures CloseBrowser !in Truncated(KeywordScript(keyword, web, first), fault)
  {
    var script := KeywordScript(keyword, web, first);
    var done := Truncated(script, fault);
    CandidatesKeepBrowser(keyword, SearchCandidates(keyword, web), web, first);
    assert done[0] == LaunchBrowser;
    assert script[..|script| - 1] == [LaunchBrowser, OpenSearchPage(SearchUrl + keyword)]
      + CandidatesScript(keyword, SearchCandidates(keyword, web), web, first) + [CloseSearchPage];
    assert done <= script[..|script| - 1];
  }

  /** How many steps a candidate takes when nothing throws: four when its
      page has content, three otherwise. */
  function CandidateSteps(c: Candidate, web: Web): nat {
    if ContainerId(DeriveId(c.ref)) in web.detail(c.href).firstParagraph then 4 else 3
  }

  function CandidatesSteps(cs: seq<Candidate>, web: Web): nat
    decreases |cs|
  {
    if cs == [] then 0 else CandidatesSteps(cs[..|cs| - 1], web) + CandidateSteps(cs[|cs| - 1], web)
  }

  /** How many steps a keyword's pipeline takes when nothing throws. */
  function KeywordSteps(keyword: string, web: Web): nat {
    4 + CandidatesSteps(SearchCandidates(keyword, web), web)
  }

  lemma {:induction false} CandidatesScriptLength(keyword: string, cs: seq<Candidate>, web: Web, first: nat)
    ensures |CandidatesScript(keyword, cs, web, first)| == CandidatesSteps(cs, web)
    decreases |cs|
  {
    if cs != [] {
      CandidatesScriptLength(keyword, cs[..|cs| - 1], web, first);
    }
  }

  /** The length of a keyword's script: whatever ids its rows receive, it is
      the count of steps above. */
  lemma KeywordScriptLength(keyword: string, web: Web, first: nat)
    ensures |KeywordScript(keyword, web, first)| == KeywordSteps(keyword, web)
  {
    CandidatesScriptLength(keyword, SearchCandidates(keyword, web), web, first);
  }

  /** How a keyword's promise settles: rejected exactly when its fault falls
      within its steps. It does not depend on any other keyword. */
  function KeywordOutcome(keyword: string, web: Web, fault: Option<nat>): (r: Settled)
    ensures forall first: nat :: r == Rejected <==> Interrupts(fault, KeywordScript(keyword, web, first))
  {
    KeywordScriptLengths(keyword, web);
    if fault.Some? && fault.value < KeywordSteps(keyword, web) then Rejected else Fulfilled
  }

  /** The length of a keyword's script, whichever id its rows start from. */
  lemma KeywordScriptLengths(keyword: string, web: Web)
    ensures forall first: nat :: |KeywordScript(keyword, web, first)| == KeywordSteps(keyword, web)
  {
    forall first: nat
      ensures |KeywordScript(keyword, web, first)| == KeywordSteps(keyword, web)
    {
      KeywordScriptLength(keyword, web, first);
    }
  }

  // ----- The batch (lines 83-95) -----

  /** The steps of several runs, one after the other. */
  function Flatten(runs: seq<seq<CrawlEvent>>): seq<CrawlEvent>
    decreases |runs|
  {
    if runs == [] then [] else Flatten(runs[..|runs| - 1]) + runs[|runs| - 1]
  }

  lemma FlattenSnoc(runs: seq<seq<CrawlEvent>>, events: seq<CrawlEvent>)
    ensures Flatten(runs + [events]) == Flatten(runs) + events
    ensures forall j :: 0 <= j <= |runs| ==> (runs + [events])[..j] == runs[..j]
  {
    assert (runs + [events])[..|runs|] == runs;
  }

  /** The first `|results|` keywords have settled, each as its own fault
      decides: the i-th run is the i-th keyword's script, its rows numbered
      from `firsts[i]` on, cut at that keyword's fault. */
  ghost predicate SettledInOrder(kws: seq<string>, web: Web, faults: nat -> Option<nat>, results: seq<Settled>,
                                 scripts: seq<seq<CrawlEvent>>, runs: seq<seq<CrawlEvent>>, firsts: seq<nat>)
  {
    && |results| == |scripts| == |runs| == |firsts| <= |kws|
    && (forall i :: 0 <= i < |results| ==> results[i] == KeywordOutcome(kws[i], web, faults(i)))
    && (forall i :: 0 <= i < |scripts| ==> scripts[i] == KeywordScript(kws[i], web, firsts[i]))
    && (forall i :: 0 <= i < |runs| ==> runs[i] == Truncated(scripts[i], faults(i)))
  }

  /** Each run's rows are numbered from where the runs before it left off. */
  ghost predicate IdsInOrder(start: nat, runs: seq<seq<CrawlEvent>>, firsts: seq<nat>)
  {
    && |runs| == |firsts|
    && forall i :: 0 <= i < |firsts| ==> firsts[i] == start + Inserted(Flatten(runs[..i]))
  }

  lemma SettledOneMore(kws: seq<string>, web: Web, faults: nat -> Option<nat>, results: seq<Settled>,
                       scripts: seq<seq<CrawlEvent>>, runs: seq<seq<CrawlEvent>>, firsts: seq<nat>,
                       settled: Settled, script: seq<CrawlEvent>, events: seq<CrawlEvent>, first: nat)
    requires SettledInOrder(kws, web, faults, results, scripts, runs, firsts) && |results| < |kws|
    requires script == KeywordScript(kws[|results|], web, first)
    requires events == Truncated(script, faults(|results|))
    requires settled == (if Interrupts(faults(|results|), script) then Rejected else Fulfilled)
    ensures SettledInOrder(kws, web, faults, results + [settled], scripts + [script], runs + [events], firsts + [first])
  {
    var n := |results|;
    KeywordScriptLength(kws[n], web, first);
    OutcomesOneMore(kws, web, faults, results, settled);
    ScriptsOneMore(kws, web, scripts, firsts, script, first);
    RunsOneMore(faults, scripts, runs, script, events);
  }

  lemma OutcomesOneMore(kws: seq<string>, web: Web, faults: nat -> Option<nat>, results: seq<Settled>, settled: Settled)
    requires |results| < |kws|
    requires forall i :: 0 <= i < |results| ==> results[i] == KeywordOutcome(kws[i], web, faults(i))
    requires settled == KeywordOutcome(kws[|results|], web, faults(|results|))
    ensures forall i :: 0 <= i < |results| + 1 ==> (results + [settled])[i] == KeywordOutcome(kws[i], web, faults(i))
  {
    forall i | 0 <= i < |results| + 1
      ensures (results + [settled])[i] == KeywordOutcome(kws[i], web, faults(i))
    {
      if i < |results| { assert (results + [settled])[i] == results[i]; }
    }
  }

  lemma ScriptsOneMore(kws: seq<string>, web: Web, scripts: seq<seq<CrawlEvent>>, firsts: seq<nat>,
                       script: seq<CrawlEvent>, first: nat)
    requires |scripts| == |firsts| < |kws|
    requires forall i :: 0 <= i < |scripts| ==> scripts[i] == KeywordScript(kws[i], web, firsts[i])
    requires script == KeywordScript(kws[|scripts|], web, first)
    ensures forall i :: 0 <= i < |scripts| + 1 ==>
      (scripts + [script])[i] == KeywordScript(kws[i], web, (firsts + [first])[i])
  {
    forall i | 0 <= i < |scripts| + 1
      ensures (scripts + [script])[i] == KeywordScript(kws[i], web, (firsts + [first])[i])
    {
      if i < |scripts| { assert (scripts + [script])[i] == scripts[i] && (firsts + [first])[i] == firsts[i]; }
    }
  }

  lemma RunsOneMore(faults: nat -> Option<nat>, scripts: seq<seq<CrawlEvent>>, runs: seq<seq<CrawlEvent>>,
                    script: seq<CrawlEvent>, events: seq<CrawlEvent>)
    requires |runs| == |scripts|
    requires forall i :: 0 <= i < |runs| ==> runs[i] == Truncated(scripts[i], faults(i))
    requires events == Truncated(script, faults(|runs|))
    ensures forall i :: 0 <= i < |runs| + 1 ==> (runs + [events])[i] == Truncated((scripts + [script])[i], faults(i))
  {
    forall i | 0 <= i < |runs| + 1
      ensures (runs + [events])[i] == Truncated((scripts + [script])[i], faults(i))
    {
      if i < |runs| { assert (runs + [events])[i] == runs[i] && (scripts + [script])[i] == scripts[i]; }
    }
  }

  lemma IdsOneMore(start: nat, runs: seq<seq<CrawlEvent>>, firsts: seq<nat>, events: seq<CrawlEvent>)
    requires IdsInOrder(start, runs, firsts)
    ensures IdsInOrder(start, runs + [events], firsts + [start + Inserted(Flatten(runs))])
  {
    FlattenSnoc(runs, events);
    assert runs == runs[..|runs|];
  }

  /** The store after one more run is the fold of the saves of all runs so
      far. */
  lemma StoreOneMore(rows0: map<nat, Post>, start: nat, runs: seq<seq<CrawlEvent>>, events: seq<CrawlEvent>,
                     rowsBefore: map<nat, Post>, idBefore: nat, rowsAfter: map<nat, Post>, idAfter: nat)
    requires rowsBefore == ApplySaves(rows0, Flatten(runs)) && idBefore == start + Inserted(Flatten(runs))
    requires rowsAfter == ApplySaves(rowsBefore, events) && idAfter == idBefore + Inserted(events)
    ensures rowsAfter == ApplySaves(rows0, Flatten(runs + [events]))
    ensures idAfter == start + Inserted(Flatten(runs + [events]))
  {
    ApplySavesAppend(rows0, Flatten(runs), events);
    FlattenSnoc(runs, events);
  }

  /** Every save among the steps writes an id of at least `first`. */
  predicate SavesFrom(events: seq<CrawlEvent>, first: nat) {
    forall k :: 0 <= k < |events| && (events[k].SaveMetadata? || events[k].SaveContent?) ==> events[k].id >= first
  }

  lemma SavesFromAppend(a: seq<CrawlEvent>, b: seq<CrawlEvent>, first: nat)
    requires SavesFrom(a, first) && SavesFrom(b, first)
    ensures SavesFrom(a + b, first)
  {
    forall k | 0 <= k < |a + b|
      ensures (a + b)[k] == if k < |a| then a[k] else b[k - |a|]
    {
    }
  }

  /** A two-phase write saves under its own id only. */
  lemma VisitSavesFrom(id: nat, meta: Post, url: string, content: Option<string>, first: nat)
    requires id >= first
    ensures SavesFrom(VisitScript(id, meta, url, content), first)
  {
    VisitScriptShape(id, meta, url, content);
  }

  lemma CandidateSavesFrom(keyword: string, c: Candidate, web: Web, id: nat, first: nat)
    requires id >= first
    ensures SavesFrom(CandidateScript(keyword, c, web, id), first)
  {
    var meta := Metadata(keyword, c);
    VisitSavesFrom(id, meta, c.href, FetchContent(web.detail(c.href), meta.externalId), first);
  }

  lemma {:induction false} CandidatesSavesFrom(keyword: string, cs: seq<Candidate>, web: Web, first: nat)
    ensures SavesFrom(CandidatesScript(keyword, cs, web, first), first)
    decreases |cs|
  {
    if cs != [] {
      var n := |cs| - 1;
      var prefix := CandidatesScript(keyword, cs[..n], web, first);
      var block := CandidateScript(keyword, cs[n], web, first + n);
      assert SavesFrom(prefix, first) by { CandidatesSavesFrom(keyword, cs[..n], web, first); }
      assert SavesFrom(block, first) by { CandidateSavesFrom(keyword, cs[n], web, first + n, first); }
      SavesFromAppend(prefix, block, first);
      CandidatesScriptLast(keyword, cs, web, first);
    }
  }

  /** A keyword's run numbered from `first` saves only ids from `first` on. */
  lemma KeywordSavesFrom(keyword: string, web: Web, first: nat)
    ensures SavesFrom(KeywordScript(keyword, web, first), first)
  {
    var body := CandidatesScript(keyword, SearchCandidates(keyword, web), web, first);
    CandidatesSavesFrom(keyword, SearchCandidates(keyword, web), web, first);
    SavesFromAppend(OpeningScript(keyword), body, first);
    SavesFromAppend(OpeningScript(keyword) + body, ClosingScript(), first);
  }

  lemma SavesFromPrefix(events: seq<CrawlEvent>, done: seq<CrawlEvent>, first: nat)
    requires SavesFrom(events, first) && done <= events
    ensures SavesFrom(done, first)
  {
    assert forall k :: 0 <= k < |done| ==> done[k] == events[k];
  }

  /** Steps that save only ids from `first` on leave every row below `first`
      as it was. */
  lemma {:induction false} SavesFromKeep(rows: map<nat, Post>, events: seq<CrawlEvent>, first: nat, id: nat)
    requires SavesFrom(events, first) && id < first
    ensures id in ApplySaves(rows, events) <==> id in rows
    ensures id in rows ==> ApplySaves(rows, events)[id] == rows[id]
    decreases |events|
  {
    if events != [] {
      var init := events[..|events| - 1];
      assert forall k :: 0 <= k < |init| ==> init[k] == events[k];
      SavesFromKeep(rows, init, first, id);
    }
  }

  /** The store holds `p` under `id`. */
  predicate Stored(rows: map<nat, Post>, id: nat, p: Post) {
    id in rows && rows[id] == p
  }

  /** The keyword's final records for `cs` are in the store, at the ids a
      run numbered from `first` gives them. */
  ghost predicate RecordsAt(keyword: string, cs: seq<Candidate>, web: Web, first: nat, rows: map<nat, Post>) {
    forall j :: 0 <= j < |cs| ==> Stored(rows, first + j, FinalRecord(keyword, cs[j], web))
  }

  ghost predicate KeywordKept(keyword: string, web: Web, first: nat, rows: map<nat, Post>) {
    RecordsAt(keyword, SearchCandidates(keyword, web), web, first, rows)
  }

  /** Every fulfilled keyword's final records are in the store. */
  ghost predicate KeptRecords(kws: seq<string>, web: Web, results: seq<Settled>, firsts: seq<nat>,
                              rows: map<nat, Post>)
    requires |results| == |firsts| <= |kws|
  {
    forall i :: 0 <= i < |results| && results[i].Fulfilled? ==> KeywordKept(kws[i], web, firsts[i], rows)
  }

  /** Records stored below `first` survive steps that save from `first` on. */
  lemma {:induction false} RecordsAtAcross(keyword: string, cs: seq<Candidate>, web: Web, f: nat, rows: map<nat, Post>,
                                           events: seq<CrawlEvent>, first: nat)
    requires RecordsAt(keyword, cs, web, f, rows)
    requires forall id :: id in rows ==> id < first
    requires SavesFrom(events, first)
    ensures RecordsAt(keyword, cs, web, f, ApplySaves(rows, events))
  {
    forall j | 0 <= j < |cs|
      ensures Stored(ApplySaves(rows, events), f + j, FinalRecord(keyword, cs[j], web))
    {
      assert Stored(rows, f + j, FinalRecord(keyword, cs[j], web));
      SavesFromKeep(rows, events, first, f + j);
    }
  }

  /** The fulfilled keywords' records survive a run that saves from `first`
      on, above every stored id. */
  lemma KeptAcross(kws: seq<string>, web: Web, results: seq<Settled>, firsts: seq<nat>,
                   rows: map<nat, Post>, events: seq<CrawlEvent>, first: nat)
    requires |results| == |firsts| <= |kws|
    requires KeptRecords(kws, web, results, firsts, rows)
    requires forall id :: id in rows ==> id < first
    requires SavesFrom(events, first)
    ensures KeptRecords(kws, web, results, firsts, ApplySaves(rows, events))
  {
    forall i | 0 <= i < |results| && results[i].Fulfilled?
      ensures KeywordKept(kws[i], web, firsts[i], ApplySaves(rows, events))
    {
      RecordsAtAcross(kws[i], SearchCandidates(kws[i], web), web, firsts[i], rows, events, first);
    }
  }

  /** A completed run stores the keyword's final records from `first` on. */
  lemma RunKept(rows: map<nat, Post>, keyword: string, web: Web, first: nat)
    requires forall id :: id in rows ==> id < first
    ensures KeywordKept(keyword, web, first, ApplySaves(rows, KeywordScript(keyword, web, first)))
  {
    var cs := SearchCandidates(keyword, web);
    var after := ApplySaves(rows, KeywordScript(keyword, web, first));
    forall j | 0 <= j < |cs|
      ensures Stored(after, first + j, FinalRecord(keyword, cs[j], web))
    {
      KeywordRecords(rows, keyword, web, first);
    }
  }

  lemma KeptSnoc(kws: seq<string>, web: Web, results: seq<Settled>, firsts: seq<nat>, settled: Settled, first: nat,
                 rows: map<nat, Post>)
    requires |results| == |firsts| < |kws|
    requires KeptRecords(kws, web, results, firsts, rows)
    requires settled.Fulfilled? ==> KeywordKept(kws[|results|], web, first, rows)
    ensures KeptRecords(kws, web, results + [settled], firsts + [first], rows)
  {
    forall i | 0 <= i < |results| + 1 && (results + [settled])[i].Fulfilled?
      ensures KeywordKept(kws[i], web, (firsts + [first])[i], rows)
    {
      if i < |results| {
        assert results[i].Fulfilled?;
      }
    }
  }

  /** One more keyword's run, numbered from `first` above every stored id,
      keeps the earlier keywords' records and, when it is fulfilled, adds its
      own. */
  lemma KeptOneMore(kws: seq<string>, web: Web, fault: Option<nat>, results: seq<Settled>, firsts: seq<nat>,
                    rowsBefore: map<nat, Post>, first: nat, settled: Settled, script: seq<CrawlEvent>,
                    events: seq<CrawlEvent>, rowsAfter: map<nat, Post>)
    requires |results| == |firsts| < |kws|
    requires KeptRecords(kws, web, results, firsts, rowsBefore)
    requires forall id :: id in rowsBefore ==> id < first
    requires script == KeywordScript(kws[|results|], web, first)
    requires events == Truncated(script, fault)
    requires settled == (if Interrupts(fault, script) then Rejected else Fulfilled)
    requires rowsAfter == ApplySaves(rowsBefore, events)
    ensures KeptRecords(kws, web, results + [settled], firsts + [first], rowsAfter)
  {
    assert SavesFrom(events, first) by {
      KeywordSavesFrom(kws[|results|], web, first);
      SavesFromPrefix(script, events, first);
    }
    KeptAcross(kws, web, results, firsts, rowsBefore, events, first);
    if settled.Fulfilled? {
      RunKept(rowsBefore, kws[|results|], web, first);
    }
    KeptSnoc(kws, web, results, firsts, settled, first, rowsAfter);
  }

  /** `Promise.allSettled(keywords.map(processKeyword))`: every keyword's
      pipeline runs and settles, whatever the others do. The store is shared
      and each pipeline saves as it goes, so the runs are modelled one after
      the other. A later run only saves ids above those already stored, so a
      fulfilled keyword's final records are still in the store at the end. */
  method SettleAll(repo: PostRepository, kws: seq<string>, web: Web, faults: nat -> Option<nat>)
    returns (results: seq<Settled>, ghost scripts: seq<seq<CrawlEvent>>, ghost runs: seq<seq<CrawlEvent>>,
             ghost firsts: seq<nat>)
    requires repo.Valid()
    modifies repo
    ensures repo.Valid()
    ensures |results| == |kws|
    ensures SettledInOrder(kws, web, faults, results, scripts, runs, firsts)
    ensures IdsInOrder(old(repo.nextId), runs, firsts)
    ensures repo.rows == ApplySaves(old(repo.rows), Flatten(runs))
    ensures repo.nextId == old(repo.nextId) + Inserted(Flatten(runs))
    ensures forall i, j :: 0 <= i < |kws| && results[i].Fulfilled? && 0 <= j < |SearchCandidates(kws[i], web)| ==>
      Stored(repo.rows, firsts[i] + j, FinalRecord(kws[i], SearchCandidates(kws[i], web)[j], web))
  {
    results, scripts, runs, firsts := [], [], [], [];
    var i := 0;
    while i < |kws|
      invariant 0 <= i <= |kws| && |results| == i
      invariant repo.Valid()
      invariant SettledInOrder(kws, web, faults, results, scripts, runs, firsts)
      invariant IdsInOrder(old(repo.nextId), runs, firsts)
      invariant repo.rows == ApplySaves(old(repo.rows), Flatten(runs))
      invariant repo.nextId == old(repo.nextId) + Inserted(Flatten(runs))
      invariant KeptRecords(kws, web, results, firsts, repo.rows)
    {
      results, scripts, runs, firsts :=
        SettleNext(repo, kws, web, faults, old(repo.rows), old(repo.nextId), results, scripts, runs, firsts);
      i := i + 1;
    }
  }

  /** The next keyword's pipeline runs and settles; the runs so far, which
      began on the store `rows0` with id `start`, are extended by its run. */
  method SettleNext(repo: PostRepository, kws: seq<string>, web: Web, faults: nat -> Option<nat>,
                    ghost rows0: map<nat, Post>, ghost start: nat,
                    results: seq<Settled>, ghost scripts: seq<seq<CrawlEvent>>, ghost runs: seq<seq<CrawlEvent>>,
                    ghost firsts: seq<nat>)
    returns (results': seq<Settled>, ghost scripts': seq<seq<CrawlEvent>>, ghost runs': seq<seq<CrawlEvent>>,
             ghost firsts': seq<nat>)
    requires repo.Valid() && |results| < |kws|
    requires SettledInOrder(kws, web, faults, results, scripts, runs, firsts)
    requires IdsInOrder(start, runs, firsts)
    requires repo.rows == ApplySaves(rows0, Flatten(runs)) && repo.nextId == start + Inserted(Flatten(runs))
    requires KeptRecords(kws, web, results, firsts, repo.rows)
    modifies repo
    ensures repo.Valid() && |results'| == |results| + 1
    ensures SettledInOrder(kws, web, faults, results', scripts', runs', firsts')
    ensures IdsInOrder(start, runs', firsts')
    ensures repo.rows == ApplySaves(rows0, Flatten(runs')) && repo.nextId == start + Inserted(Flatten(runs'))
    ensures KeptRecords(kws, web, results', firsts', repo.rows)
  {
    var i := |results|;
    var first := repo.nextId;
    ghost var rowsBefore := repo.rows;
    ghost var script := KeywordScript(kws[i], web, first);
    var settled, events := ProcessKeyword(repo, kws[i], web, faults(i), rowsBefore, first);
    SettledOneMore(kws, web, faults, results, scripts, runs, firsts, settled, script, events, first);
    IdsOneMore(start, runs, firsts, events);
    StoreOneMore(rows0, start, runs, events, rowsBefore, first, repo.rows, repo.nextId);
    KeptOneMore(kws, web, faults(i), results, firsts, rowsBefore, first, settled, script, events, repo.rows);
    results', scripts', runs', firsts' := results + [settled], scripts + [script], runs + [events], firsts + [first];
  }

  /** The worker body: initialise the store, then settle every keyword. A
      failed initialisation is the only error the worker reports, and it
      leaves no keyword to settle; rejected keywords still end in
      `Completed`. `keywords` is `None` when the worker was given no list,
      which counts as an empty one. A fulfilled keyword's final records are
      in the store at the end, whatever the keywords after it did. */
  method RunWorker(repo: PostRepository, keywords: Option<seq<string>>, web: Web,
                   faults: nat -> Option<nat>, initError: Option<string>)
    returns (status: WorkerStatus, results: seq<Settled>, ghost scripts: seq<seq<CrawlEvent>>,
             ghost runs: seq<seq<CrawlEvent>>, ghost firsts: seq<nat>)
    requires repo.Valid()
    modifies repo
    ensures repo.Valid()
    ensures status == if initError.Some? then Failed(initError.value) else Completed
    ensures initError.Some? ==> results == [] && runs == []
    ensures initError.None? ==>
      && |results| == |keywords.GetOr([])|
      && SettledInOrder(keywords.GetOr([]), web, faults, results, scripts, runs, firsts)
      && IdsInOrder(old(repo.nextId), runs, firsts)
    ensures forall i, j ::
      0 <= i < |results| && results[i].Fulfilled? && 0 <= j < |SearchCandidates(keywords.GetOr([])[i], web)| ==>
        Stored(repo.rows, firsts[i] + j, FinalRecord(keywords.GetOr([])[i], SearchCandidates(keywords.GetOr([])[i], web)[j], web))
    ensures repo.rows == ApplySaves(old(repo.rows), Flatten(runs))
    ensures repo.nextId == old(repo.nextId) + Inserted(Flatten(runs))
  {
    var kws := if initError.Some? then [] else keywords.GetOr([]);
    results, scripts, runs, firsts := SettleAll(repo, kws, web, faults);
    status := if initError.Some? then Failed(initError.value) else Completed;
  }
}
