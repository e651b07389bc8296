/** The single-page client written without a framework: one global `state` record that
    named handlers write field by field, the derivation of what the home page shows from
    it (loading, empty result, featured post and the rest), and the rule that turns a
    post's content into headings, paragraphs and breaks, line by line. */
module ClientState {
  import opened Text
  import opened BlogData
  import PostStore

  // ---------------------------------------------------------------------------
  // Filtering

  /** `a` is `b` with some elements left out, the rest in their order. */
  predicate IsSubsequence<T(==)>(a: seq<T>, b: seq<T>)
    decreases |b|
  {
    a == [] || (b != [] && ((a[0] == b[0] && IsSubsequence(a[1..], b[1..])) || IsSubsequence(a, b[1..])))
  }

  lemma {:induction false} SubsequenceTransitive<T>(a: seq<T>, b: seq<T>, c: seq<T>)
    requires IsSubsequence(a, b) && IsSubsequence(b, c)
    ensures IsSubsequence(a, c)
    decreases |c|
  {
    if a != [] {
      assert b != [] && c != [];
      if IsSubsequence(b, c[1..]) {
        SubsequenceTransitive(a, b, c[1..]);
      } else {
        assert b[0] == c[0] && IsSubsequence(b[1..], c[1..]);
        if a[0] == b[0] && IsSubsequence(a[1..], b[1..]) {
          SubsequenceTransitive(a[1..], b[1..], c[1..]);
        } else {
          SubsequenceTransitive(a, b[1..], c[1..]);
        }
      }
    }
  }

  /** `s.filter(keep)`: the elements that pass, in their order. */
  function Filter(s: seq<Post>, keep: Post -> bool): (r: seq<Post>)
    ensures forall x :: x in r <==> x in s && keep(x)
    ensures forall x :: multiset(r)[x] == if keep(x) then multiset(s)[x] else 0
    ensures IsSubsequence(r, s)
  {
    if s == [] then []
    else
      var rest := Filter(s[1..], keep);
      assert forall x :: x in s <==> x == s[0] || x in s[1..];
      assert s == [s[0]] + s[1..];
      assert multiset(s) == multiset([s[0]]) + multiset(s[1..]);
      if keep(s[0]) then
        assert ([s[0]] + rest)[1..] == rest;
        [s[0]] + rest
      else rest
  }

  /** Filters that agree on every element give the same result. */
  lemma {:induction false} FilterAgrees(s: seq<Post>, k1: Post -> bool, k2: Post -> bool)
    requires forall x :: x in s ==> k1(x) == k2(x)
    ensures Filter(s, k1) == Filter(s, k2)
  {
    if s != [] {
      FilterAgrees(s[1..], k1, k2);
    }
  }

  /** The search box: the lower-cased query occurs in the lower-cased title, content or excerpt. */
  predicate SearchHit(p: Post, query: string) {
    var q := ToLower(query);
    Includes(ToLower(p.title), q) || Includes(ToLower(p.content), q) || Includes(ToLower(p.excerpt), q)
  }

  /** A post passes the search (when the query is non-empty) and the category (when one is selected). */
  predicate Passes(p: Post, query: string, category: Option<string>) {
    (query == "" || SearchHit(p, query)) && (!Truthy(category) || p.category == category.value)
  }

  /** The posts the home page lists: searched when the query is non-empty, then narrowed to
      the selected category when one is selected. */
  function Visible(posts: seq<Post>, query: string, category: Option<string>): seq<Post> {
    var searched := if query != "" then Filter(posts, (p: Post) => SearchHit(p, query)) else posts;
    if Truthy(category) then Filter(searched, (p: Post) => p.category == category.value) else searched
  }

  /** A post is listed exactly when it passes both filters, as many times as the table holds
      it, and the list keeps the table's order. */
  lemma VisibleSpec(posts: seq<Post>, query: string, category: Option<string>)
    ensures forall p :: p in Visible(posts, query, category) <==> p in posts && Passes(p, query, category)
    ensures forall p :: multiset(Visible(posts, query, category))[p] ==
                        if Passes(p, query, category) then multiset(posts)[p] else 0
    ensures IsSubsequence(Visible(posts, query, category), posts)
  {
    var searched := if query != "" then Filter(posts, (p: Post) => SearchHit(p, query)) else posts;
    if query == "" {
      SubsequenceReflexive(posts);
    }
    if Truthy(category) {
      SubsequenceTransitive(Visible(posts, query, category), searched, posts);
    }
  }

  lemma {:induction false} SubsequenceReflexive<T>(s: seq<T>)
    ensures IsSubsequence(s, s)
  {
    if s != [] {
      SubsequenceReflexive(s[1..]);
    }
  }

  /** The search ignores the case of the query's ASCII letters. */
  lemma SearchIgnoresCase(posts: seq<Post>, query: string, category: Option<string>)
    ensures Visible(posts, ToLower(query), category) == Visible(posts, query, category)
  {
    ToLowerIdempotent(query);
    assert forall p :: SearchHit(p, ToLower(query)) == SearchHit(p, query);
    FilterAgrees(posts, (p: Post) => SearchHit(p, ToLower(query)), (p: Post) => SearchHit(p, query));
  }

  // ---------------------------------------------------------------------------
  // The home page

  datatype Heading = SearchResults(query: string) | CategoryPosts(category: string) | Insights
  /** `Found(n)` renders as "Found n post(s)", `Discover(c)` as "Discover c stories". */
  datatype Subtitle = Found(count: nat) | Discover(category: string) | AnyTopic

  datatype HomeModel =
    | Loading
    | NoResults(query: string, category: Option<string>)
    | NoPosts
    | Listing(featured: Post, others: seq<Post>, heading: Heading, subtitle: Subtitle)

  /** The page title: the search takes precedence over the category. */
  function HeadingOf(query: string, category: Option<string>): Heading {
    if query != "" then SearchResults(query)
    else if Truthy(category) then CategoryPosts(category.value)
    else Insights
  }

  /** The subtitle: the number of posts shown when searching, else the lower-cased category. */
  function SubtitleOf(shown: nat, query: string, category: Option<string>): Subtitle {
    if query != "" then Found(shown)
    else if Truthy(category) then Discover(ToLower(category.value))
    else AnyTopic
  }

  /** The home page as the code renders it; `None` when it throws: with an empty list and no
      filter, `filteredPosts[0]` is undefined and the featured card reads a field of it. */
  function HomePageAsWritten(posts: Option<seq<Post>>, query: string, category: Option<string>): Option<HomeModel> {
    if posts.None? then Some(Loading)
    else
      var shown := Visible(posts.value, query, category);
      if shown == [] && (query != "" || Truthy(category)) then Some(NoResults(query, category))
      else if shown == [] then None
      else Some(Listing(shown[0], shown[1..], HeadingOf(query, category), SubtitleOf(|shown|, query, category)))
  }

  /** The home page with the crash replaced by an empty-table view. */
  function HomePage(posts: Option<seq<Post>>, query: string, category: Option<string>): HomeModel {
    if posts.None? then Loading
    else
      var shown := Visible(posts.value, query, category);
      if shown == [] && (query != "" || Truthy(category)) then NoResults(query, category)
      else if shown == [] then NoPosts
      else Listing(shown[0], shown[1..], HeadingOf(query, category), SubtitleOf(|shown|, query, category))
  }

  /** Loading is shown exactly before the first list arrives; the empty-result view exactly when
      a filter is set and nothing passes; otherwise the featured post and the others together
      are the filtered list, in order. */
  lemma HomePageSpec(posts: Option<seq<Post>>, query: string, category: Option<string>)
    ensures HomePage(posts, query, category) == Loading <==> posts.None?
    ensures HomePage(posts, query, category).NoResults? <==>
      posts.Some? && Visible(posts.value, query, category) == [] && (query != "" || Truthy(category))
    ensures HomePage(posts, query, category) == NoPosts <==>
      posts.Some? && Visible(posts.value, query, category) == [] && query == "" && !Truthy(category)
    ensures HomePage(posts, query, category).Listing? ==>
      [HomePage(posts, query, category).featured] + HomePage(posts, query, category).others
        == Visible(posts.value, query, category)
  {
    if posts.Some? {
      var shown := Visible(posts.value, query, category);
      if shown != [] {
        assert [shown[0]] + shown[1..] == shown;
      }
    }
  }

  /** The listing's title and subtitle: a search shows its query and the number of posts
      listed (the featured one and the others), else a selected category is shown in the
      title and, lower-cased, in the subtitle, else the generic title and subtitle. */
  lemma HomePageTitles(posts: Option<seq<Post>>, query: string, category: Option<string>)
    ensures HomePage(posts, query, category).Listing? ==>
      HomePage(posts, query, category).heading == HeadingOf(query, category) &&
      HomePage(posts, query, category).subtitle ==
        SubtitleOf(1 + |HomePage(posts, query, category).others|, query, category)
    ensures HomePage(posts, query, category).Listing? && query != "" ==>
      HomePage(posts, query, category).heading == SearchResults(query) &&
      HomePage(posts, query, category).subtitle == Found(1 + |HomePage(posts, query, category).others|) &&
      HomePage(posts, query, category).subtitle.count == |Visible(posts.value, query, category)|
    ensures HomePage(posts, query, category).Listing? && query == "" && Truthy(category) ==>
      HomePage(posts, query, category).heading == CategoryPosts(category.value) &&
      HomePage(posts, query, category).subtitle == Discover(ToLower(category.value))
    ensures HomePage(posts, query, category).Listing? && query == "" && !Truthy(category) ==>
      HomePage(posts, query, category).heading == Insights && HomePage(posts, query, category).subtitle == AnyTopic
  {
    if posts.Some? {
      var shown := Visible(posts.value, query, category);
      if shown != [] {
        assert |shown| == 1 + |shown[1..]|;
      }
    }
  }

  /** With no filter the list is the whole table, so the home page lists nothing only when the table is empty. */
  lemma NoPostsOnlyForEmptyTable(posts: seq<Post>)
    ensures HomePage(Some(posts), "", None) == NoPosts <==> posts == []
  {
  }

  /** The page as written agrees with the corrected page except when the table (after no filter)
      is empty, where it throws. */
  lemma AsWrittenAgreesExceptEmpty(posts: Option<seq<Post>>, query: string, category: Option<string>)
    ensures HomePageAsWritten(posts, query, category) == None <==>
      HomePage(posts, query, category) == NoPosts
    ensures HomePageAsWritten(posts, query, category) != None ==>
      HomePageAsWritten(posts, query, category) == Some(HomePage(posts, query, category))
  {
  }

  /** The as-written page throws for an empty table with no filter, e.g. after the last post is deleted. */
  lemma AsWrittenThrowsOnEmptyTable()
    ensures HomePageAsWritten(Some([]), "", None) == None
  {
  }

  // ---------------------------------------------------------------------------
  // Content rendering

  datatype Block = Heading2(text: string) | Heading3(text: string) | Paragraph(text: string) | Break

  /** One line of content: `## ` and `### ` prefixes make headings (the prefix is replaced by
      nothing), the empty line a break, anything else a paragraph. */
  function ClassifyLine(line: string): Block {
    if StartsWith(line, "## ") then Heading2(ReplaceFirst(line, "## ", ""))
    else if StartsWith(line, "### ") then Heading3(ReplaceFirst(line, "### ", ""))
    else if line != "" then Paragraph(line)
    else Break
  }

  /** `content.split('\n').map(...)`: one block per line. */
  function RenderContent(content: string): (blocks: seq<Block>)
    ensures |blocks| == Count(content, '\n') + 1
    ensures forall i :: 0 <= i < |blocks| ==> blocks[i] == ClassifyLine(Split(content, '\n')[i])
  {
    var lines := Split(content, '\n');
    seq(|lines|, i requires 0 <= i < |lines| => ClassifyLine(lines[i]))
  }

  /** The line a block was made from. */
  function LineOf(b: Block): string {
    match b
    case Heading2(t) => "## " + t
    case Heading3(t) => "### " + t
    case Paragraph(t) => t
    case Break => ""
  }

  /** What each kind of line becomes. A `### ` line is never a level-2 heading: its third
      character is `#`, not a space. */
  lemma ClassifyLineSpec(line: string)
    ensures StartsWith(line, "## ") ==> ClassifyLine(line) == Heading2(line[3..])
    ensures StartsWith(line, "### ") ==> ClassifyLine(line) == Heading3(line[4..])
    ensures ClassifyLine(line) == Break <==> line == ""
    ensures ClassifyLine(line).Paragraph? <==>
      line != "" && !StartsWith(line, "## ") && !StartsWith(line, "### ")
    ensures ClassifyLine(line).Paragraph? ==> ClassifyLine(line).text == line
  {
    if StartsWith(line, "## ") {
      assert line[2] == "## "[2] != "### "[2];
      ReplaceLeadingPrefix(line, "## ");
    } else if StartsWith(line, "### ") {
      ReplaceLeadingPrefix(line, "### ");
    }
  }

  /** Classifying a line loses nothing: the line can be rebuilt from its block. */
  lemma LineOfClassify(line: string)
    ensures LineOf(ClassifyLine(line)) == line
  {
    ClassifyLineSpec(line);
    if StartsWith(line, "## ") {
      assert line == "## " + line[3..];
    } else if StartsWith(line, "### ") {
      assert line == "### " + line[4..];
    }
  }

  /** The lines the blocks were made from. */
  function LinesOf(blocks: seq<Block>): (lines: seq<string>)
    ensures |lines| == |blocks|
    ensures forall i :: 0 <= i < |blocks| ==> lines[i] == LineOf(blocks[i])
  {
    seq(|blocks|, i requires 0 <= i < |blocks| => LineOf(blocks[i]))
  }

  /** The rendered blocks determine the content: joining their lines gives it back. */
  lemma RenderContentLossless(content: string)
    ensures |LinesOf(RenderContent(content))| >= 1
    ensures Join(LinesOf(RenderContent(content)), '\n') == content
  {
    var lines := Split(content, '\n');
    var back := LinesOf(RenderContent(content));
    forall i | 0 <= i < |lines| ensures back[i] == lines[i] {
      LineOfClassify(lines[i]);
    }
    assert back == lines;
    JoinSplit(content, '\n');
  }

  // ---------------------------------------------------------------------------
  // The state record and its transitions

  datatype View = Home | Detail | Create

  /** A category link toggles: the selected category is cleared, any other one selected. */
  function ToggleCategory(selected: Option<string>, c: string): (r: Option<string>)
    ensures r == None <==> selected == Some(c)
    ensures r != None ==> r == Some(c)
  {
    if selected == Some(c) then None else Some(c)
  }

  /** Clicking the same category twice returns to the starting selection exactly when that was
      nothing or that category. */
  lemma ToggleTwice(selected: Option<string>, c: string)
    ensures ToggleCategory(ToggleCategory(selected, c), c) == selected <==> selected == None || selected == Some(c)
    ensures ToggleCategory(ToggleCategory(None, c), c) == None
  {
  }

  /** The API call the create form's submit handler makes. */
  datatype Request = UpdateRequest(id: string, patch: PostStore.Patch) | CreateRequest(draft: PostStore.Draft)

  class AppState {
    var view: View
    var postId: Option<string>
    var mobileMenuOpen: bool
    var posts: Option<seq<Post>>
    var currentPost: Option<Post>
    var editingPost: Option<Post>
    var searchQuery: string
    var selectedCategory: Option<string>

    constructor ()
      ensures view == Home && postId == None && !mobileMenuOpen
      ensures posts == None && currentPost == None && editingPost == None
      ensures searchQuery == "" && selectedCategory == None
    {
      view, postId, mobileMenuOpen := Home, None, false;
      posts, currentPost, editingPost := None, None, None;
      searchQuery, selectedCategory := "", None;
    }

    /** What the home page shows for the current state. */
    function Page(): HomeModel
      reads this
    {
      HomePage(posts, searchQuery, selectedCategory)
    }

    /** `navigateTo(view, id)`: the view and id are set and the menu closed first; the home view
        then loads the list and a detail view with an id loads that post. A failed load is
        logged and leaves the previous data. `listing` and `detail` are what the two loads
        would get back; only the one the view asks for is used. */
    method NavigateTo(v: View, id: Option<string>, listing: Fetched<seq<Post>>, detail: Fetched<Post>)
      modifies this
      ensures view == v && postId == id && !mobileMenuOpen
      ensures posts == if v == Home && listing.Loaded? then Some(listing.value) else old(posts)
      ensures currentPost ==
        if v == Detail && Truthy(id) && detail.Loaded? then Some(detail.value) else old(currentPost)
      ensures editingPost == old(editingPost)
      ensures searchQuery == old(searchQuery) && selectedCategory == old(selectedCategory)
    {
      view := v;
      postId := id;
      mobileMenuOpen := false;
      if v == Home {
        if listing.Loaded? {
          posts := Some(listing.value);
        }
      } else if v == Detail && Truthy(id) {
        if detail.Loaded? {
          currentPost := Some(detail.value);
        }
      }
    }

    /** `navigateToEdit(id)`: the post is loaded first; if that fails the handler throws before
        changing anything, otherwise it becomes the edit buffer and the create view opens. */
    method NavigateToEdit(id: string, loaded: Fetched<Post>)
      modifies this
      ensures loaded.Failed? ==> unchanged(this)
      ensures loaded.Loaded? ==>
        editingPost == Some(loaded.value) && view == Create && postId == None && !mobileMenuOpen &&
        posts == old(posts) && currentPost == old(currentPost) &&
        searchQuery == old(searchQuery) && selectedCategory == old(selectedCategory)
    {
      if loaded.Failed? {
        return;
      }
      editingPost := Some(loaded.value);
      NavigateTo(Create, None, Failed, Failed);
    }

    /** `toggleMobileMenu()` */
    method ToggleMobileMenu()
      modifies this
      ensures mobileMenuOpen == !old(mobileMenuOpen)
      ensures view == old(view) && postId == old(postId) && posts == old(posts)
      ensures currentPost == old(currentPost) && editingPost == old(editingPost)
      ensures searchQuery == old(searchQuery) && selectedCategory == old(selectedCategory)
    {
      mobileMenuOpen := !mobileMenuOpen;
    }

    /** `handleSearch(e)`: only the query changes; filtering happens on the list already loaded. */
    method HandleSearch(query: string)
      modifies this
      ensures searchQuery == query
      ensures view == old(view) && postId == old(postId) && mobileMenuOpen == old(mobileMenuOpen)
      ensures posts == old(posts) && currentPost == old(currentPost) && editingPost == old(editingPost)
      ensures selectedCategory == old(selectedCategory)
      ensures Page() == HomePage(old(posts), query, old(selectedCategory))
    {
      searchQuery := query;
    }

    /** `selectCategory(c)`: toggles the category, then navigates home. */
    method SelectCategory(c: string, listing: Fetched<seq<Post>>)
      modifies this
      ensures selectedCategory == ToggleCategory(old(selectedCategory), c)
      ensures view == Home && postId == None && !mobileMenuOpen
      ensures posts == if listing.Loaded? then Some(listing.value) else old(posts)
      ensures currentPost == old(currentPost) && editingPost == old(editingPost)
      ensures searchQuery == old(searchQuery)
    {
      selectedCategory := ToggleCategory(selectedCategory, c);
      NavigateTo(Home, None, listing, Failed);
    }

    /** `handleCreate(e)`: with an edit buffer the form updates that post, otherwise it creates
        one. The handler has no `try`: a refused call throws and nothing else changes. On
        success the buffer is cleared and the home view reloads. */
    method HandleCreate(form: PostStore.Draft, accepted: bool, listing: Fetched<seq<Post>>)
      returns (request: Request)
      modifies this
      ensures request == if old(editingPost).Some?
        then UpdateRequest(old(editingPost).value.id, PostStore.PatchOfDraft(form))
        else CreateRequest(form)
      ensures !accepted ==> unchanged(this)
      ensures accepted ==>
        editingPost == None && view == Home && postId == None && !mobileMenuOpen &&
        posts == (if listing.Loaded? then Some(listing.value) else old(posts)) &&
        currentPost == old(currentPost) &&
        searchQuery == old(searchQuery) && selectedCategory == old(selectedCategory)
    {
      if editingPost.Some? {
        request := UpdateRequest(editingPost.value.id, PostStore.PatchOfDraft(form));
        if !accepted {
          return;
        }
        editingPost := None;
        NavigateTo(Home, None, listing, Failed);
      } else {
        request := CreateRequest(form);
        if !accepted {
          return;
        }
        NavigateTo(Home, None, listing, Failed);
      }
    }

    /** `cancelEdit()`: always drops the edit buffer and navigates home. */
    method CancelEdit(listing: Fetched<seq<Post>>)
      modifies this
      ensures editingPost == None && view == Home && postId == None && !mobileMenuOpen
      ensures posts == if listing.Loaded? then Some(listing.value) else old(posts)
      ensures currentPost == old(currentPost)
      ensures searchQuery == old(searchQuery) && selectedCategory == old(selectedCategory)
    {
      editingPost := None;
      NavigateTo(Home, None, listing, Failed);
    }
  }

  /** Selecting the same category twice from no selection leaves no category selected. */
  method SelectSameCategoryTwice(s: AppState, c: string, first: Fetched<seq<Post>>, second: Fetched<seq<Post>>)
    requires s.selectedCategory == None
    modifies s
    ensures s.selectedCategory == None && s.view == Home
  {
    s.SelectCategory(c, first);
    s.SelectCategory(c, second);
  }
}
