/** The `post` handler of the main process: it reads one stored post, pads a
    short title with the start of the content, logs into the forum and fills
    and submits the topic composer.

    The forum is abstracted as what the handler's element queries find
    (`ForumPage`), and the handler's effect as the sequence of browser actions
    it performs. Every awaited browser action can throw; `fault` names the
    position in that sequence of the first action that throws, if any.

    Line numbers in this module refer to `crawl-data/src/main/index.ts`. */
module ForumPublisher {
  import opened Js
  import opened Entities
  import opened Faults

  /** A title shorter than this is padded from the content. */
  const MinTitleLength: nat := 15

  const ForumUrl: string := "https://forum.hidemium.io/"

  /** The title the composer is filled with. A title of fewer than 15
      characters gets the trimmed start of the content appended. The template
      `` ` ${extra}` `` is trimmed before it is appended, so the leading blank is
      always removed and nothing separates the two parts. */
  function NormalizeTitle(title: string, content: Option<string>): (r: string)
    ensures title <= r
    ensures |title| >= MinTitleLength ==> r == title
    ensures |title| < MinTitleLength ==> |r| <= MinTitleLength
  {
    if |title| < MinTitleLength then
      TrimLeadingBlank(Padding(title, content));
      title + Trim([' '] + Padding(title, content))
    else
      title
  }

  /** The start of the content that a short title may take: at most as many
      characters as the title lacks, nothing when the content is unset or
      empty. */
  function Padding(title: string, content: Option<string>): (r: string)
    requires |title| < MinTitleLength
    ensures r == content.GetOr("")[..Min(|content.GetOr("")|, MinTitleLength - |title|)]
  {
    if content.Some? && content.value != "" then Slice(content.value, 0, MinTitleLength - |title|) else ""
  }

  /** Unset or empty content leaves any title unchanged. */
  lemma NormalizeTitleWithoutContent(title: string, content: Option<string>)
    requires content.None? || content == Some("")
    ensures NormalizeTitle(title, content) == title
  {
    if |title| < MinTitleLength {
      NormalizeTitleAppendsTrimmedContent(title, content);
      assert content.GetOr("")[..Min(|content.GetOr("")|, MinTitleLength - |title|)] == [];
    }
  }

  /** The padding of a short title is the trimmed start of the content, with
      no separator. */
  lemma NormalizeTitleAppendsTrimmedContent(title: string, content: Option<string>)
    requires |title| < MinTitleLength
    ensures NormalizeTitle(title, content)
         == title + Trim(content.GetOr("")[..Min(|content.GetOr("")|, MinTitleLength - |title|)])
  {
    TrimLeadingBlank(Padding(title, content));
  }

  /** When the taken part of the content has no blank at either end, the
      padded title is exactly `|title| + min(|content|, 15 - |title|)` long:
      one character shorter than a blank-separated join would be. */
  lemma NormalizeTitleLength(title: string, c: string)
    requires |title| < MinTitleLength
    requires var taken := c[..Min(|c|, MinTitleLength - |title|)];
      taken == [] || (!IsWhiteSpace(taken[0]) && !IsWhiteSpace(taken[|taken| - 1]))
    ensures |NormalizeTitle(title, Some(c))| == |title| + Min(|c|, MinTitleLength - |title|)
  {
    var taken := c[..Min(|c|, MinTitleLength - |title|)];
    NormalizeTitleAppendsTrimmedContent(title, Some(c));
    TrimOfTrimmed(taken);
  }

  /** Content that fits in what a short title lacks and has no white space
      at either end is appended as it is, with no blank in between. */
  lemma NormalizeTitleAppendsFittingContent(title: string, c: string)
    requires |title| + |c| <= MinTitleLength && |title| < MinTitleLength
    requires c == [] || (!IsWhiteSpace(c[0]) && !IsWhiteSpace(c[|c| - 1]))
    ensures NormalizeTitle(title, Some(c)) == title + c
  {
    assert c[..Min(|c|, MinTitleLength - |title|)] == c;
    NormalizeTitleAppendsTrimmedContent(title, Some(c));
    TrimOfTrimmed(c);
  }

  /** "Hello" with content "World" becomes "HelloWorld". */
  lemma NormalizeTitleExample()
    ensures NormalizeTitle("Hello", Some("World")) == "HelloWorld"
  {
    NormalizeTitleAppendsFittingContent("Hello", "World");
  }

  /** What the handler's element queries find on the forum. A chooser's first
      item is only looked for when the chooser is there. */
  datatype ForumPage = ForumPage(
    loginButton: bool,
    createTopicButton: bool,
    categoryChooser: bool,
    firstCategory: bool,
    tagChooser: bool,
    firstTag: bool)

  /** The awaited browser actions of the handler. The login fills carry no
      value: the credentials are not part of the model. */
  datatype Action =
    | Launch
    | NewPage
    | GotoForum(url: string)
    | ClickLogin
    | FillAccountName
    | FillPassword
    | PressEnter
    | WaitForNavigation
    | ClickCreateTopic
    | OpenComposerActions
    | PickCreateTopic
    | FillTitle(title: string)
    | FillContent(content: string)
    | OpenCategoryChooser
    | FillFilter(text: string)
    | PickFirstCategory
    | OpenTagChooser
    | PickFirstTag
    | ClickSubmit
    | CloseBrowser

  /** How a call of the handler ended. */
  datatype Exit = PostNotFound | LoginMissing | CreateTopicMissing | Submitted | Threw

  /** Actions that put something into a form or send it. */
  predicate IsFormAction(a: Action) {
    a.FillAccountName? || a.FillPassword? || a.PressEnter? || a.FillTitle? || a.FillContent?
    || a.FillFilter? || a.PickFirstCategory? || a.PickFirstTag? || a.ClickSubmit?
  }

  /** Launching the browser, opening a page and going to the forum. */
  function OpeningBlock(): seq<Action> {
    [Launch, NewPage, GotoForum(ForumUrl)]
  }

  /** Clicking the login button, filling the credentials, pressing Enter and
      waiting for the navigation that follows. */
  function LoginBlock(): seq<Action> {
    [ClickLogin, FillAccountName, FillPassword, PressEnter, WaitForNavigation]
  }

  /** Opening the composer as a new topic and filling its title and body. */
  function ComposeBlock(title: string, content: string): seq<Action> {
    [ClickCreateTopic, OpenComposerActions, PickCreateTopic, FillTitle(title), FillContent(content)]
  }

  /** Open a chooser, type the keyword into its filter, take its first item if
      one is there; nothing at all when the chooser is absent. */
  function ChooserBlock(open: Action, pick: Action, present: bool, first: bool, keyword: string): seq<Action> {
    if !present then [] else [open, FillFilter(keyword)] + (if first then [pick] else [])
  }

  /** The composer, the two choosers and the submit click, once logged in
      and the create-topic button was found. */
  function ComposeScript(title: string, content: string, keyword: string, page: ForumPage): seq<Action> {
    ComposeBlock(title, content) + ChooseScript(keyword, page)
  }

  /** What follows the opening when the login button was found. */
  function LoggedInScript(post: Post, page: ForumPage): seq<Action> {
    LoginBlock()
    + if page.createTopicButton
      then ComposeScript(NormalizeTitle(post.title, post.content), post.content.GetOr(""), post.keyword, page)
      else []
  }

  /** Everything before the final close, for a post that exists. */
  function PublishBody(post: Post, page: ForumPage): seq<Action> {
    OpeningBlock() + if page.loginButton then LoggedInScript(post, page) else []
  }

  /** The actions of a call that throws nowhere, for a post that exists. */
  function PublishScript(post: Post, page: ForumPage): seq<Action> {
    PublishBody(post, page) + [CloseBrowser]
  }

  /** The exit of a call that throws nowhere, for a post that exists. */
  function PlannedExit(page: ForumPage): Exit {
    if !page.loginButton then LoginMissing
    else if !page.createTopicButton then CreateTopicMissing
    else Submitted
  }

  /** Lines 223-230: a new browser, a page, the forum. */
  method OpenForum(fault: Option<nat>) returns (next: seq<Action>, ok: bool)
    ensures next == Truncated(OpeningBlock(), fault)
    ensures ok <==> !Interrupts(fault, OpeningBlock())
  {
    ghost var block := OpeningBlock();
    next, ok := Await([], Launch, fault);
    if !ok { StopsAt(block, fault, 0); return; }
    next, ok := Await(next, NewPage, fault);
    if !ok { StopsAt(block, fault, 1); return; }
    next, ok := Await(next, GotoForum(ForumUrl), fault);
    if !ok { StopsAt(block, fault, 2); return; }
    StopsAt(block, fault, 3);
  }

  /** Lines 238-245 and 253: the login form and the navigation after it. */
  method LogIn(trace: seq<Action>, fault: Option<nat>) returns (next: seq<Action>, ok: bool)
    ensures next == trace + Truncated(LoginBlock(), Shift(fault, |trace|))
    ensures ok <==> !Interrupts(Shift(fault, |trace|), LoginBlock())
  {
    ghost var block, f := LoginBlock(), Shift(fault, |trace|);
    next, ok := Await(trace, ClickLogin, fault);
    if !ok { StopsAt(block, f, 0); return; }
    next, ok := Await(next, FillAccountName, fault);
    if !ok { StopsAt(block, f, 1); return; }
    next, ok := Await(next, FillPassword, fault);
    if !ok { StopsAt(block, f, 2); return; }
    next, ok := Await(next, PressEnter, fault);
    if !ok { StopsAt(block, f, 3); return; }
    next, ok := Await(next, WaitForNavigation, fault);
    if !ok { StopsAt(block, f, 4); return; }
    StopsAt(block, f, 5);
  }

  /** Lines 259-276: open the composer as a new topic and fill it. */
  method Compose(trace: seq<Action>, title: string, content: string, fault: Option<nat>)
    returns (next: seq<Action>, ok: bool)
    ensures next == trace + Truncated(ComposeBlock(title, content), Shift(fault, |trace|))
    ensures ok <==> !Interrupts(Shift(fault, |trace|), ComposeBlock(title, content))
  {
    ghost var block, f := ComposeBlock(title, content), Shift(fault, |trace|);
    next, ok := Await(trace, ClickCreateTopic, fault);
    if !ok { StopsAt(block, f, 0); return; }
    next, ok := Await(next, OpenComposerActions, fault);
    if !ok { StopsAt(block, f, 1); return; }
    next, ok := Await(next, PickCreateTopic, fault);
    if !ok { StopsAt(block, f, 2); return; }
    next, ok := Await(next, FillTitle(title), fault);
    if !ok { StopsAt(block, f, 3); return; }
    next, ok := Await(next, FillContent(content), fault);
    if !ok { StopsAt(block, f, 4); return; }
    StopsAt(block, f, 5);
  }

  /** Lines 281-294 (category) and 297-310 (tag): a best-effort choice. */
  method Choose(trace: seq<Action>, open: Action, pick: Action, present: bool, first: bool, keyword: string,
                fault: Option<nat>)
    returns (next: seq<Action>, ok: bool)
    ensures next == trace + Truncated(ChooserBlock(open, pick, present, first, keyword), Shift(fault, |trace|))
    ensures ok <==> !Interrupts(Shift(fault, |trace|), ChooserBlock(open, pick, present, first, keyword))
  {
    ghost var block, f := ChooserBlock(open, pick, present, first, keyword), Shift(fault, |trace|);
    next, ok := trace, true;
    if present {
      next, ok := Await(next, open, fault);
      if !ok { StopsAt(block, f, 0); return; }
      next, ok := Await(next, FillFilter(keyword), fault);
      if !ok { StopsAt(block, f, 1); return; }
      if first {
        next, ok := Await(next, pick, fault);
        if !ok { StopsAt(block, f, 2); return; }
      }
    }
    StopsAt(block, f, |block|);
  }

  /** The two choosers and the submit click. */
  function ChooseScript(keyword: string, page: ForumPage): seq<Action> {
    ChooserBlock(OpenCategoryChooser, PickFirstCategory, page.categoryChooser, page.firstCategory, keyword)
    + ChooserBlock(OpenTagChooser, PickFirstTag, page.tagChooser, page.firstTag, keyword) + [ClickSubmit]
  }

  /** Lines 281-313: the category and tag choosers and the submit click. */
  method ChooseAndSubmit(trace: seq<Action>, keyword: string, page: ForumPage, fault: Option<nat>)
    returns (next: seq<Action>, ok: bool)
    ensures next == trace + Truncated(ChooseScript(keyword, page), Shift(fault, |trace|))
    ensures ok <==> !Interrupts(Shift(fault, |trace|), ChooseScript(keyword, page))
  {
    ghost var script := ChooseScript(keyword, page);
    ghost var category :=
      ChooserBlock(OpenCategoryChooser, PickFirstCategory, page.categoryChooser, page.firstCategory, keyword);
    ghost var tag := ChooserBlock(OpenTagChooser, PickFirstTag, page.tagChooser, page.firstTag, keyword);

    next, ok := Choose(trace, OpenCategoryChooser, PickFirstCategory, page.categoryChooser, page.firstCategory,
                       keyword, fault);
    if !ok {
      InterruptedPrefix(category, script, Shift(fault, |trace|));
      return;
    }
    next, ok := Choose(next, OpenTagChooser, PickFirstTag, page.tagChooser, page.firstTag, keyword, fault);
    Advance(trace, category, tag, fault, next);
    ghost var done := category + tag;
    if !ok {
      InterruptedPrefix(done, script, Shift(fault, |trace|));
      return;
    }
    next, ok := Await(next, ClickSubmit, fault);
    Advance(trace, done, [ClickSubmit], fault, next);
  }

  /** Lines 259-313: the composer, the choosers and the submit click. */
  method ComposeAndSubmit(trace: seq<Action>, title: string, content: string, keyword: string, page: ForumPage,
                          fault: Option<nat>)
    returns (next: seq<Action>, ok: bool)
    ensures next == trace + Truncated(ComposeScript(title, content, keyword, page), Shift(fault, |trace|))
    ensures ok <==> !Interrupts(Shift(fault, |trace|), ComposeScript(title, content, keyword, page))
  {
    next, ok := Compose(trace, title, content, fault);
    Advance(trace, [], ComposeBlock(title, content), fault, next);
    if !ok {
      InterruptedPrefix(ComposeBlock(title, content), ComposeScript(title, content, keyword, page), Shift(fault, |trace|));
      return;
    }
    next, ok := ChooseAndSubmit(next, keyword, page, fault);
    Advance(trace, ComposeBlock(title, content), ChooseScript(keyword, page), fault, next);
  }

  /** Lines 238-313 once the login button was found: log in, then compose and
      submit if the create-topic button is there. */
  method LoggedIn(trace: seq<Action>, post: Post, page: ForumPage, fault: Option<nat>)
    returns (next: seq<Action>, ok: bool)
    ensures next == trace + Truncated(LoggedInScript(post, page), Shift(fault, |trace|))
    ensures ok <==> !Interrupts(Shift(fault, |trace|), LoggedInScript(post, page))
  {
    next, ok := LogIn(trace, fault);
    Advance(trace, [], LoginBlock(), fault, next);
    if !ok {
      InterruptedPrefix(LoginBlock(), LoggedInScript(post, page), Shift(fault, |trace|));
      return;
    }
    if page.createTopicButton {
      var title := NormalizeTitle(post.title, post.content);
      var content := post.content.GetOr("");
      next, ok := ComposeAndSubmit(next, title, content, post.keyword, page, fault);
      Advance(trace, LoginBlock(), ComposeScript(title, content, post.keyword, page), fault, next);
    } else {
      Advance(trace, LoginBlock(), [], fault, next);
    }
  }

  /** The `post` handler. It has no `modifies` clause: no path writes the
      posts table. A missing post returns before a browser is launched; a
      throwing action ends the call where it stands, with the browser still
      open once it was launched, since nothing closes it on that path. */
  method Publish(posts: PostRepository, id: nat, page: ForumPage, fault: Option<nat>)
    returns (exit: Exit, trace: seq<Action>, browserOpen: bool)
    ensures id !in posts.rows ==> exit == PostNotFound && trace == [] && !browserOpen
    ensures id in posts.rows ==>
      var script := PublishScript(posts.rows[id], page);
      && trace == Truncated(script, fault)
      && exit == (if Interrupts(fault, script) then Threw else PlannedExit(page))
      && browserOpen == (Interrupts(fault, script) && fault.value > 0)
  {
    exit, trace, browserOpen := PostNotFound, [], false;
    if id !in posts.rows {
      return;
    }
    var post := posts.rows[id];
    ghost var script := PublishScript(post, page);
    ghost var body := PublishBody(post, page);
    var ok;

    trace, ok := OpenForum(fault);
    Advance([], [], OpeningBlock(), fault, trace);
    if !ok {
      InterruptedPrefix(OpeningBlock(), script, fault);
      exit, browserOpen := Threw, trace != [];
      return;
    }
    if page.loginButton {
      trace, ok := LoggedIn(trace, post, page, fault);
      Advance([], OpeningBlock(), LoggedInScript(post, page), fault, trace);
      if !ok {
        InterruptedPrefix(body, script, fault);
        exit, browserOpen := Threw, true;
        return;
      }
    } else {
      Advance([], OpeningBlock(), [], fault, trace);
    }
    trace, ok := Await(trace, CloseBrowser, fault);
    Advance([], body, [CloseBrowser], fault, trace);
    if !ok {
      exit, browserOpen := Threw, true;
      return;
    }
    exit := PlannedExit(page);
  }

  /** What a chooser block holds: its opener, the keyword filter and, when
      there is a first item, the pick. */
  lemma ChooserBlockMembers(open: Action, pick: Action, present: bool, first: bool, keyword: string, a: Action)
    ensures a in ChooserBlock(open, pick, present, first, keyword)
      <==> present && (a == open || a == FillFilter(keyword) || (first && a == pick))
  {
  }

  /** The actions a run that throws nowhere performs, listed without their
      order: the opening and the close always, the login form when its button
      is there, and the composer, the choosers' steps and the submit click
      when the create-topic button is there too. */
  predicate Performs(post: Post, page: ForumPage, a: Action) {
    || a == Launch || a == NewPage || a == GotoForum(ForumUrl) || a == CloseBrowser
    || (page.loginButton && (a == ClickLogin || a == FillAccountName || a == FillPassword || a == PressEnter
                             || a == WaitForNavigation))
    || (page.loginButton && page.createTopicButton && ComposerPerforms(post, page, a))
  }

  /** The composer's share of `Performs`. */
  predicate ComposerPerforms(post: Post, page: ForumPage, a: Action) {
    || a == ClickCreateTopic || a == OpenComposerActions || a == PickCreateTopic
    || a == FillTitle(NormalizeTitle(post.title, post.content)) || a == FillContent(post.content.GetOr(""))
    || (page.categoryChooser && (a == OpenCategoryChooser || a == FillFilter(post.keyword)
                                 || (page.firstCategory && a == PickFirstCategory)))
    || (page.tagChooser && (a == OpenTagChooser || a == FillFilter(post.keyword) || (page.firstTag && a == PickFirstTag)))
    || a == ClickSubmit
  }

  /** The choosers and the submit click hold exactly their share of the
      actions. */
  lemma ChooseScriptMembers(keyword: string, page: ForumPage, a: Action)
    ensures a in ChooseScript(keyword, page) <==>
      || (page.categoryChooser && (a == OpenCategoryChooser || a == FillFilter(keyword)
                                   || (page.firstCategory && a == PickFirstCategory)))
      || (page.tagChooser && (a == OpenTagChooser || a == FillFilter(keyword) || (page.firstTag && a == PickFirstTag)))
      || a == ClickSubmit
  {
    var category := ChooserBlock(OpenCategoryChooser, PickFirstCategory, page.categoryChooser, page.firstCategory, keyword);
    var tag := ChooserBlock(OpenTagChooser, PickFirstTag, page.tagChooser, page.firstTag, keyword);
    ChooserBlockMembers(OpenCategoryChooser, PickFirstCategory, page.categoryChooser, page.firstCategory, keyword, a);
    ChooserBlockMembers(OpenTagChooser, PickFirstTag, page.tagChooser, page.firstTag, keyword, a);
    assert a in ChooseScript(keyword, page) <==> a in category || a in tag || a == ClickSubmit;
  }

  /** The composer, the choosers and the submit click hold exactly the
      composer's share of the actions. */
  lemma ComposeScriptMembers(post: Post, page: ForumPage, a: Action)
    ensures a in ComposeScript(NormalizeTitle(post.title, post.content), post.content.GetOr(""), post.keyword, page)
      <==> ComposerPerforms(post, page, a)
  {
    var title := NormalizeTitle(post.title, post.content);
    var content := post.content.GetOr("");
    ChooseScriptMembers(post.keyword, page, a);
    assert a in ComposeScript(title, content, post.keyword, page)
      <==> a in ComposeBlock(title, content) || a in ChooseScript(post.keyword, page);
  }

  /** What follows the opening holds exactly the login form's actions and,
      with a create-topic button, the composer's share. */
  lemma LoggedInMembers(post: Post, page: ForumPage, a: Action)
    ensures a in LoggedInScript(post, page) <==>
      || a in LoginBlock()
      || (page.createTopicButton && ComposerPerforms(post, page, a))
  {
    ComposeScriptMembers(post, page, a);
  }

  /** What a call that throws nowhere performs is exactly `Performs`. */
  lemma ScriptMembers(post: Post, page: ForumPage, a: Action)
    ensures a in PublishScript(post, page) <==> Performs(post, page, a)
  {
    LoggedInMembers(post, page, a);
    var rest := if page.loginButton then LoggedInScript(post, page) else [];
    assert a in PublishBody(post, page) <==> a in OpeningBlock() || a in rest;
  }

  /** Every call that throws nowhere launches one browser first and closes it
      last; no action in between launches or closes one. */
  lemma ScriptShape(post: Post, page: ForumPage)
    ensures var s := PublishScript(post, page);
      && |s| >= 4 && s[0] == Launch && s[|s| - 1] == CloseBrowser
      && forall i :: 0 < i < |s| - 1 ==> s[i] != Launch && s[i] != CloseBrowser
  {
    var s := PublishScript(post, page);
    var rest := if page.loginButton then LoggedInScript(post, page) else [];
    LoggedInMembers(post, page, Launch);
    LoggedInMembers(post, page, CloseBrowser);
    assert PublishBody(post, page) == OpeningBlock() + rest;
    forall i | 3 <= i < |s| - 1
      ensures s[i] != Launch && s[i] != CloseBrowser
    {
      assert s[i] == rest[i - 3];
    }
  }

  /** Every call that throws nowhere launches one browser first and closes it
      exactly once, last. */
  lemma ScriptClosesBrowserOnce(post: Post, page: ForumPage)
    ensures var s := PublishScript(post, page);
      && |s| >= 4 && s[0] == Launch && s[|s| - 1] == CloseBrowser
      && multiset(s)[Launch] == 1 && multiset(s)[CloseBrowser] == 1
  {
    ScriptShape(post, page);
    OnceAtEachEnd(PublishScript(post, page), Launch, CloseBrowser);
  }

  /** A sequence that starts with `x`, ends with `y` and holds neither in
      between holds each once. */
  lemma OnceAtEachEnd<A>(s: seq<A>, x: A, y: A)
    requires |s| >= 2 && s[0] == x && s[|s| - 1] == y && x != y
    requires forall i :: 0 < i < |s| - 1 ==> s[i] != x && s[i] != y
    ensures multiset(s)[x] == 1 && multiset(s)[y] == 1
  {
    var middle := s[1..|s| - 1];
    assert s == [x] + middle + [y];
    assert x !in middle && y !in middle;
  }

  /** Without a login button the browser is closed and nothing is filled or
      submitted. */
  lemma LoginMissingFillsNothing(post: Post, page: ForumPage)
    requires !page.loginButton
    ensures forall a :: a in PublishScript(post, page) ==> !IsFormAction(a)
    ensures PlannedExit(page) == LoginMissing
  {
  }

  /** Without a create-topic button no title, content, filter or submit action
      happens; the browser is still closed (see `ScriptClosesBrowserOnce`). */
  lemma CreateTopicMissingComposesNothing(post: Post, page: ForumPage)
    requires page.loginButton && !page.createTopicButton
    ensures forall a :: a in PublishScript(post, page) ==>
      !(a.FillTitle? || a.FillContent? || a.FillFilter? || a.ClickSubmit?)
    ensures PlannedExit(page) == CreateTopicMissing
  {
  }

  /** Submit is clicked exactly when both buttons are there, whatever the
      choosers hold, and so are the title and the content filled. */
  lemma SubmitReachedIffButtonsPresent(post: Post, page: ForumPage)
    ensures var s := PublishScript(post, page);
      && (ClickSubmit in s <==> page.loginButton && page.createTopicButton)
      && (FillTitle(NormalizeTitle(post.title, post.content)) in s <==> page.loginButton && page.createTopicButton)
      && (FillContent(post.content.GetOr("")) in s <==> page.loginButton && page.createTopicButton)
  {
    var s := PublishScript(post, page);
    var both := page.loginButton && page.createTopicButton;
    assert ClickSubmit in s <==> both by {
      ScriptMembers(post, page, ClickSubmit);
    }
    assert FillTitle(NormalizeTitle(post.title, post.content)) in s <==> both by {
      ScriptMembers(post, page, FillTitle(NormalizeTitle(post.title, post.content)));
    }
    assert FillContent(post.content.GetOr("")) in s <==> both by {
      ScriptMembers(post, page, FillContent(post.content.GetOr("")));
    }
  }

  /** The only title filled is the normalised one, and the only content
      filled is the stored content or the empty string. */
  lemma FilledTextsAreThePosts(post: Post, page: ForumPage)
    ensures var s := PublishScript(post, page);
      && (forall a :: a in s && a.FillTitle? ==> a.title == NormalizeTitle(post.title, post.content))
      && (forall a :: a in s && a.FillContent? ==> a.content == post.content.GetOr(""))
  {
    forall a | a in PublishScript(post, page) && (a.FillTitle? || a.FillContent?)
      ensures a.FillTitle? ==> a.title == NormalizeTitle(post.title, post.content)
      ensures a.FillContent? ==> a.content == post.content.GetOr("")
    {
      ScriptMembers(post, page, a);
      assert ComposerPerforms(post, page, a);
    }
  }

  /** When submit is clicked it is the last action before the close. */
  lemma SubmitComesLast(post: Post, page: ForumPage)
    requires page.loginButton && page.createTopicButton
    ensures var s := PublishScript(post, page); |s| >= 2 && s[|s| - 2] == ClickSubmit
  {
    var choose := ChooseScript(post.keyword, page);
    assert choose[|choose| - 1] == ClickSubmit;
    var compose := ComposeScript(NormalizeTitle(post.title, post.content), post.content.GetOr(""), post.keyword, page);
    assert compose == ComposeBlock(NormalizeTitle(post.title, post.content), post.content.GetOr("")) + choose;
    assert compose[|compose| - 1] == ClickSubmit;
    var loggedIn := LoggedInScript(post, page);
    assert loggedIn == LoginBlock() + compose;
    assert loggedIn[|loggedIn| - 1] == ClickSubmit;
    var body := PublishBody(post, page);
    assert body == OpeningBlock() + loggedIn;
    assert body[|body| - 1] == ClickSubmit;
  }

  /** A category is picked exactly when the composer was reached and the
      chooser shows a first item; the same for the tag. Every filter typed is
      the post's keyword. */
  lemma ChoosersAreBestEffort(post: Post, page: ForumPage)
    ensures var s := PublishScript(post, page);
      && (PickFirstCategory in s <==>
            page.loginButton && page.createTopicButton && page.categoryChooser && page.firstCategory)
      && (PickFirstTag in s <==>
            page.loginButton && page.createTopicButton && page.tagChooser && page.firstTag)
      && (forall a :: a in s && a.FillFilter? ==> a.text == post.keyword)
  {
    var s := PublishScript(post, page);
    ScriptMembers(post, page, PickFirstCategory);
    ScriptMembers(post, page, PickFirstTag);
    forall a | a in s && a.FillFilter?
      ensures a.text == post.keyword
    {
      ScriptMembers(post, page, a);
    }
  }

  /** An action that throws after the launch leaves the browser open: the
      actions performed hold the launch and no close. */
  lemma ThrowLeavesBrowserOpen(post: Post, page: ForumPage, fault: Option<nat>)
    requires Interrupts(fault, PublishScript(post, page)) && fault.value > 0
    ensures var done := Truncated(PublishScript(post, page), fault);
      Launch in done && CloseBrowser !in done
  {
    var s := PublishScript(post, page);
    ScriptShape(post, page);
    var done := s[..fault.value];
    assert done[0] == Launch;
    forall a | a in done
      ensures a != CloseBrowser
    {
      var i :| 0 <= i < |done| && done[i] == a;
      assert s[i] == a;
    }
  }
}
