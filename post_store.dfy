/** The server's in-memory backend: a module-level table of posts that the REST
    handlers for list, get, create, update, delete and add-comment read and change
    in place, and the read-time estimate the handlers derive from a post's content. */
module PostStore {
  import opened Text
  import opened BlogData

  /** The handlers' answer: the value they send back, or the 404 "Post not found" reply. */
  datatype Outcome<T> = Ok(value: T) | NotFound

  /** The six fields a client may write. */
  datatype Field = Title | Excerpt | Content | Author | Category | ImageUrl

  function FieldOf(p: Post, f: Field): string {
    match f
    case Title => p.title
    case Excerpt => p.excerpt
    case Content => p.content
    case Author => p.author
    case Category => p.category
    case ImageUrl => p.imageUrl
  }

  /** The body of a create request. */
  datatype Draft = Draft(
    title: string, excerpt: string, content: string,
    author: string, category: string, imageUrl: string)

  function DraftField(d: Draft, f: Field): string {
    match f
    case Title => d.title
    case Excerpt => d.excerpt
    case Content => d.content
    case Author => d.author
    case Category => d.category
    case ImageUrl => d.imageUrl
  }

  /** The body of an update request: the writable fields the client sent, with their text. */
  type Patch = map<Field, string>

  /** `field || post.field` takes the supplied value only when it is truthy. */
  predicate Supplies(patch: Patch, f: Field) {
    f in patch && patch[f] != ""
  }

  // ---------------------------------------------------------------------------
  // Read time

  const WordsPerMinute: nat := 200
  const MinRead: string := " min read"

  /** `String(content).split(' ').length` */
  function WordCount(content: string): (n: nat)
    ensures n == Count(content, ' ') + 1
  {
    |Split(content, ' ')|
  }

  /** `Math.ceil(WordCount(content) / 200)`: never below one, because a split yields a piece. */
  function ReadMinutes(content: string): (k: nat)
    ensures k >= 1
    ensures (k - 1) * WordsPerMinute < WordCount(content) <= k * WordsPerMinute
  {
    (WordCount(content) + WordsPerMinute - 1) / WordsPerMinute
  }

  /** The display text `${minutes} min read`. */
  function ReadTime(content: string): (t: string)
    ensures t == Decimal(ReadMinutes(content)) + MinRead
    ensures ParseReadTime(t) == Some(ReadMinutes(content))
  {
    var digits := Decimal(ReadMinutes(content));
    var t := digits + MinRead;
    assert t[..|digits|] == digits && t[|digits|..] == MinRead;
    ParseDecimalOfDecimal(ReadMinutes(content));
    t
  }

  /** Reads the minutes back out of a read-time text, if it has the `<digits> min read` shape. */
  function ParseReadTime(t: string): Option<nat> {
    var n := |t| - |MinRead|;
    if n >= 1 && t[n..] == MinRead && forall i :: 0 <= i < n ==> IsDigit(t[i])
    then Some(ParseDecimal(t[..n]))
    else None
  }

  /** Two contents get the same read-time text exactly when they need the same minutes. */
  lemma ReadTimeSameIff(a: string, b: string)
    ensures ReadTime(a) == ReadTime(b) <==> ReadMinutes(a) == ReadMinutes(b)
  {
  }

  /** The post's stored read time matches its content. */
  predicate ReadTimeConsistent(p: Post) {
    p.readTime == ReadTime(p.content)
  }

  // ---------------------------------------------------------------------------
  // Records built by the handlers

  /** The record the create handler builds; id and timestamp come from the clock. */
  function NewPost(id: string, createdAt: string, d: Draft): (p: Post)
    ensures p.id == id && p.createdAt == createdAt && p.comments == []
    ensures forall f :: FieldOf(p, f) == DraftField(d, f)
    ensures ReadTimeConsistent(p)
  {
    Post(id, d.title, d.excerpt, d.content, d.author, d.category, d.imageUrl,
         createdAt, ReadTime(d.content), [])
  }

  /** The record the update handler stores: `{...post, title: title || post.title, ...}`. */
  function ApplyPatch(p: Post, patch: Patch): (q: Post)
    ensures forall f :: FieldOf(q, f) == if Supplies(patch, f) then patch[f] else FieldOf(p, f)
    ensures q.readTime == if Supplies(patch, Content) then ReadTime(patch[Content]) else p.readTime
    ensures q.id == p.id && q.createdAt == p.createdAt && q.comments == p.comments
  {
    var q := p.(title := if Supplies(patch, Title) then patch[Title] else p.title,
       excerpt := if Supplies(patch, Excerpt) then patch[Excerpt] else p.excerpt,
       content := if Supplies(patch, Content) then patch[Content] else p.content,
       author := if Supplies(patch, Author) then patch[Author] else p.author,
       category := if Supplies(patch, Category) then patch[Category] else p.category,
       imageUrl := if Supplies(patch, ImageUrl) then patch[ImageUrl] else p.imageUrl,
       readTime := if Supplies(patch, Content) then ReadTime(patch[Content]) else p.readTime);
    assert forall f :: FieldOf(q, f) == if Supplies(patch, f) then patch[f] else FieldOf(p, f) by {
      forall f ensures FieldOf(q, f) == if Supplies(patch, f) then patch[f] else FieldOf(p, f) {
        assert f.Title? || f.Excerpt? || f.Content? || f.Author? || f.Category? || f.ImageUrl?;
      }
    }
    q
  }

  /** A post is determined by its six writable fields and the four others. */
  lemma PostExtensional(p: Post, q: Post)
    requires forall f :: FieldOf(p, f) == FieldOf(q, f)
    requires p.id == q.id && p.createdAt == q.createdAt
    requires p.readTime == q.readTime && p.comments == q.comments
    ensures p == q
  {
    assert FieldOf(p, Title) == FieldOf(q, Title);
    assert FieldOf(p, Excerpt) == FieldOf(q, Excerpt);
    assert FieldOf(p, Content) == FieldOf(q, Content);
    assert FieldOf(p, Author) == FieldOf(q, Author);
    assert FieldOf(p, Category) == FieldOf(q, Category);
    assert FieldOf(p, ImageUrl) == FieldOf(q, ImageUrl);
  }

  /** An update that supplies no truthy field leaves the post as it was. */
  lemma EmptyPatchIsIdentity(p: Post, patch: Patch)
    requires forall f :: !Supplies(patch, f)
    ensures ApplyPatch(p, patch) == p
  {
    PostExtensional(ApplyPatch(p, patch), p);
  }

  /** An update keeps the read time in step with the content. */
  lemma PatchKeepsReadTimeConsistent(p: Post, patch: Patch)
    requires ReadTimeConsistent(p)
    ensures ReadTimeConsistent(ApplyPatch(p, patch))
  {
    assert FieldOf(ApplyPatch(p, patch), Content) == ApplyPatch(p, patch).content;
  }

  /** The update two requests leave behind when the second one wins on every field it supplies. */
  function Merge(first: Patch, second: Patch): (m: Patch)
    ensures forall f :: Supplies(m, f) <==> Supplies(first, f) || Supplies(second, f)
    ensures forall f :: Supplies(second, f) ==> f in m && m[f] == second[f]
    ensures forall f :: Supplies(first, f) && !Supplies(second, f) ==> f in m && m[f] == first[f]
  {
    map f | f in first.Keys + second.Keys ::
      if Supplies(second, f) || f !in first then second[f] else first[f]
  }

  /** Last write wins: two updates in a row act as one update with the later values on top. */
  lemma UpdatesCompose(p: Post, first: Patch, second: Patch)
    ensures ApplyPatch(ApplyPatch(p, first), second) == ApplyPatch(p, Merge(first, second))
  {
    PostExtensional(ApplyPatch(ApplyPatch(p, first), second), ApplyPatch(p, Merge(first, second)));
  }

  /** Repeating an update changes nothing more. */
  lemma UpdateIdempotent(p: Post, patch: Patch)
    ensures ApplyPatch(ApplyPatch(p, patch), patch) == ApplyPatch(p, patch)
  {
    UpdatesCompose(p, patch, patch);
    assert Merge(patch, patch) == patch;
  }

  /** A form that sends all six fields, read as an update body. */
  function PatchOfDraft(d: Draft): (m: Patch)
    ensures forall f :: f in m && m[f] == DraftField(d, f)
  {
    var m := map[Title := d.title, Excerpt := d.excerpt, Content := d.content,
                 Author := d.author, Category := d.category, ImageUrl := d.imageUrl];
    assert forall f :: f in m && m[f] == DraftField(d, f) by {
      forall f ensures f in m && m[f] == DraftField(d, f) {
        assert f.Title? || f.Excerpt? || f.Content? || f.Author? || f.Category? || f.ImageUrl?;
      }
    }
    m
  }

  /** The six writable fields of a post, as a form pre-filled from it holds them. */
  function DraftOf(p: Post): (d: Draft)
    ensures forall f :: DraftField(d, f) == FieldOf(p, f)
  {
    Draft(p.title, p.excerpt, p.content, p.author, p.category, p.imageUrl)
  }

  /** Saving a form pre-filled from a post, unchanged, leaves the post as it was, provided its
      read time matched its content (a non-empty content recomputes it). */
  lemma SaveUnchangedIsIdentity(p: Post)
    requires ReadTimeConsistent(p) || p.content == ""
    ensures ApplyPatch(p, PatchOfDraft(DraftOf(p))) == p
  {
    PostExtensional(ApplyPatch(p, PatchOfDraft(DraftOf(p))), p);
  }

  /** `post.comments.push(comment)` */
  function WithComment(p: Post, c: Comment): (q: Post)
    ensures |q.comments| == |p.comments| + 1
    ensures q.comments[..|p.comments|] == p.comments && q.comments[|p.comments|] == c
    ensures q.(comments := p.comments) == p
  {
    p.(comments := p.comments + [c])
  }

  // ---------------------------------------------------------------------------
  // Lookup by id

  /** `i` is the position `findIndex(p => p.id === id)` answers. */
  predicate IsFirst(posts: seq<Post>, id: string, i: int) {
    0 <= i < |posts| && posts[i].id == id && forall j :: 0 <= j < i ==> posts[j].id != id
  }

  /** No post has this id. */
  predicate Absent(posts: seq<Post>, id: string) {
    forall j :: 0 <= j < |posts| ==> posts[j].id != id
  }

  /** `posts.findIndex(p => p.id === id)` */
  function FindIndex(posts: seq<Post>, id: string): (i: int)
    ensures i == -1 || IsFirst(posts, id, i)
    ensures i == -1 <==> Absent(posts, id)
  {
    if posts == [] then -1
    else if posts[0].id == id then 0
    else
      var k := FindIndex(posts[1..], id);
      if k < 0 then -1 else k + 1
  }

  /** The first match is unique, so the handlers' lookups are well defined. */
  lemma FirstIsUnique(posts: seq<Post>, id: string, i: int, j: int)
    requires IsFirst(posts, id, i) && IsFirst(posts, id, j)
    ensures i == j
  {
  }

  predicate UniqueIds(posts: seq<Post>) {
    forall i, j :: 0 <= i < j < |posts| ==> posts[i].id != posts[j].id
  }

  // ---------------------------------------------------------------------------
  // The table

  const SampleContent: string :=
    "In recent years, artificial intelligence has made significant strides in various fields, including web development. From automated code generation to intelligent design tools, AI is transforming the way developers create websites and applications. This article explores the latest trends and technologies that are shaping the future of web development."

  /** The sample post the in-memory backend starts with; its creation time is read at start-up. */
  function SamplePost(startedAt: string): Post {
    Post("1", "The Future of Web Development", "How AI is reshaping how we build...",
         SampleContent,
         "Alex Rivera", "Technology", "https://picsum.photos/id/48/800/400",
         startedAt, "5 min read", [])
  }

  class Store {
    /** The `posts` array, newest created first. */
    var posts: seq<Post>

    constructor (startedAt: string)
      ensures posts == [SamplePost(startedAt)]
    {
      posts := [SamplePost(startedAt)];
    }

    /** GET /api/posts */
    method List() returns (r: seq<Post>)
      ensures r == posts
    {
      r := posts;
    }

    /** GET /api/posts/:id: the first post with that id. */
    method Get(id: string) returns (r: Outcome<Post>)
      ensures r == NotFound <==> Absent(posts, id)
      ensures forall i :: IsFirst(posts, id, i) ==> r == Ok(posts[i])
    {
      var i := FindIndex(posts, id);
      if i == -1 {
        r := NotFound;
      } else {
        r := Ok(posts[i]);
      }
    }

    /** POST /api/posts: the new post goes to the front (`unshift`). */
    method Create(id: string, createdAt: string, draft: Draft) returns (p: Post)
      modifies this
      ensures p == NewPost(id, createdAt, draft)
      ensures posts == [p] + old(posts)
    {
      p := NewPost(id, createdAt, draft);
      posts := [p] + posts;
    }

    /** PUT /api/posts/:id: the first post with that id is replaced by its patched copy. */
    method Update(id: string, patch: Patch) returns (r: Outcome<Post>)
      modifies this
      ensures Absent(old(posts), id) ==> r == NotFound && posts == old(posts)
      ensures forall i :: IsFirst(old(posts), id, i) ==>
        posts == old(posts)[i := ApplyPatch(old(posts)[i], patch)] && r == Ok(posts[i])
    {
      var i := FindIndex(posts, id);
      if i == -1 {
        r := NotFound;
        return;
      }
      posts := posts[i := ApplyPatch(posts[i], patch)];
      r := Ok(posts[i]);
    }

    /** DELETE /api/posts/:id: the first post with that id is spliced out. */
    method Delete(id: string) returns (r: Outcome<()>)
      modifies this
      ensures Absent(old(posts), id) ==> r == NotFound && posts == old(posts)
      ensures forall i :: IsFirst(old(posts), id, i) ==>
        posts == old(posts)[..i] + old(posts)[i + 1..] && r == Ok(())
    {
      var i := FindIndex(posts, id);
      if i == -1 {
        r := NotFound;
        return;
      }
      posts := posts[..i] + posts[i + 1..];
      r := Ok(());
    }

    /** POST /api/posts/:id/comments: the comment is pushed onto the first post with that id. */
    method AddComment(postId: string, commentId: string, createdAt: string, content: string, author: string)
      returns (r: Outcome<Comment>)
      modifies this
      ensures Absent(old(posts), postId) ==> r == NotFound && posts == old(posts)
      ensures forall i :: IsFirst(old(posts), postId, i) ==>
        r == Ok(Comment(commentId, content, author, createdAt)) &&
        posts == old(posts)[i := WithComment(old(posts)[i], r.value)]
    {
      var comment := Comment(commentId, content, author, createdAt);
      var i := FindIndex(posts, postId);
      if i == -1 {
        r := NotFound;
        return;
      }
      posts := posts[i := WithComment(posts[i], comment)];
      r := Ok(comment);
    }
  }

  // ---------------------------------------------------------------------------
  // What a later request sees

  /** After a create, a get for the new id answers the new post: it is first in the table. */
  lemma GetAfterCreate(posts: seq<Post>, p: Post)
    ensures IsFirst([p] + posts, p.id, 0)
  {
  }

  /** Replacing the matched post by one with the same id keeps it the first match, so a
      get after an update or an add-comment answers the changed post. */
  lemma {:induction false} FirstAfterReplace(posts: seq<Post>, id: string, i: int, q: Post)
    requires IsFirst(posts, id, i) && q.id == id
    ensures IsFirst(posts[i := q], id, i)
  {
    assert forall j :: 0 <= j < i ==> posts[i := q][j] == posts[j];
  }

  /** With unique ids, after a delete no post has the deleted id, and the others keep their order. */
  lemma {:induction false} DeleteRemoves(posts: seq<Post>, id: string, i: int)
    requires UniqueIds(posts) && IsFirst(posts, id, i)
    ensures Absent(posts[..i] + posts[i + 1..], id)
    ensures UniqueIds(posts[..i] + posts[i + 1..])
  {
    var rest := posts[..i] + posts[i + 1..];
    forall j | 0 <= j < |rest| ensures rest[j].id != id {
      if j < i {
        assert rest[j] == posts[j];
      } else {
        assert rest[j] == posts[j + 1];
      }
    }
    forall a, b | 0 <= a < b < |rest| ensures rest[a].id != rest[b].id {
      var a', b' := if a < i then a else a + 1, if b < i then b else b + 1;
      assert rest[a] == posts[a'] && rest[b] == posts[b'];
    }
  }

  /** Without unique ids a delete removes only the first match: a get afterwards finds the
      next post with that id, one place further forward. */
  lemma {:induction false} DeleteLeavesDuplicate(posts: seq<Post>, id: string, i: int, j: int)
    requires IsFirst(posts, id, i) && i < j < |posts| && posts[j].id == id
    requires forall k :: i < k < j ==> posts[k].id != id
    ensures IsFirst(posts[..i] + posts[i + 1..], id, j - 1)
  {
    var rest := posts[..i] + posts[i + 1..];
    forall k | 0 <= k < j - 1 ensures rest[k].id != id {
      if k < i {
        assert rest[k] == posts[k];
      } else {
        assert rest[k] == posts[k + 1];
      }
    }
    assert rest[j - 1] == posts[j];
  }

  /** A create keeps the ids unique exactly when the new id is not already taken. */
  lemma {:induction false} CreateUniqueIff(posts: seq<Post>, p: Post)
    requires UniqueIds(posts)
    ensures UniqueIds([p] + posts) <==> Absent(posts, p.id)
  {
    var all := [p] + posts;
    if UniqueIds(all) {
      forall j | 0 <= j < |posts| ensures posts[j].id != p.id {
        assert all[0] == p && all[j + 1] == posts[j];
      }
    }
    if Absent(posts, p.id) {
      forall a, b | 0 <= a < b < |all| ensures all[a].id != all[b].id {
        assert all[b] == posts[b - 1];
        if a > 0 { assert all[a] == posts[a - 1]; }
      }
    }
  }
}
