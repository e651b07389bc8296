/** The component-based client's post page: its own line classifier for the post's
    content, and the local state cells its handlers update when a comment is submitted
    and when the post is edited in place. */
module PostDetail {
  import opened Text
  import opened BlogData
  import PostStore
  import opened ClientState

  // ---------------------------------------------------------------------------
  // Content rendering

  /** The detail page's rule: headings as in the other client, but a line that is empty after
      trimming is a break. */
  function ClassifyDetailLine(line: string): Block {
    if StartsWith(line, "## ") then Heading2(ReplaceFirst(line, "## ", ""))
    else if StartsWith(line, "### ") then Heading3(ReplaceFirst(line, "### ", ""))
    else if Trim(line) == "" then Break
    else Paragraph(line)
  }

  /** `post.content.split('\n').map(...)`: one block per line. */
  function RenderDetailContent(content: string): (blocks: seq<Block>)
    ensures |blocks| == Count(content, '\n') + 1
    ensures forall i :: 0 <= i < |blocks| ==> blocks[i] == ClassifyDetailLine(Split(content, '\n')[i])
  {
    var lines := Split(content, '\n');
    seq(|lines|, i requires 0 <= i < |lines| => ClassifyDetailLine(lines[i]))
  }

  /** What each kind of line becomes on the detail page. */
  lemma ClassifyDetailLineSpec(line: string)
    ensures StartsWith(line, "## ") ==> ClassifyDetailLine(line) == Heading2(line[3..])
    ensures StartsWith(line, "### ") ==> ClassifyDetailLine(line) == Heading3(line[4..])
    ensures ClassifyDetailLine(line) == Break <==> IsBlank(line)
    ensures ClassifyDetailLine(line).Paragraph? <==>
      !IsBlank(line) && !StartsWith(line, "## ") && !StartsWith(line, "### ")
    ensures ClassifyDetailLine(line).Paragraph? ==> ClassifyDetailLine(line).text == line
  {
    if StartsWith(line, "## ") {
      assert line[2] == "## "[2] != "### "[2];
      assert line[0] == '#' && !IsBlank(line);
      ReplaceLeadingPrefix(line, "## ");
    } else if StartsWith(line, "### ") {
      assert line[0] == '#' && !IsBlank(line);
      ReplaceLeadingPrefix(line, "### ");
    } else {
      TrimEmptyIff(line);
    }
  }

  /** The two clients classify a line differently exactly when it is non-empty and made of
      spaces only: the other client shows it as a paragraph, this page as a break. */
  lemma ClassifiersDifferIff(line: string)
    ensures ClassifyDetailLine(line) != ClassifyLine(line) <==> line != "" && IsBlank(line)
    ensures line != "" && IsBlank(line) ==>
      ClassifyLine(line) == Paragraph(line) && ClassifyDetailLine(line) == Break
  {
    ClassifyDetailLineSpec(line);
    ClassifyLineSpec(line);
  }

  /** Unlike the other client's, this rendering loses text: a line of spaces and an empty line
      give the same block. */
  lemma DetailRenderingForgetsSpaces()
    ensures ClassifyDetailLine(" ") == ClassifyDetailLine("") == Break
    ensures LineOf(ClassifyDetailLine(" ")) != " "
  {
    ClassifyDetailLineSpec(" ");
    ClassifyDetailLineSpec("");
  }

  // ---------------------------------------------------------------------------
  // Local state

  /** The author every comment from this page is sent with. */
  const GuestAuthor: string := "Guest User"

  /** The `addComment(postId, content, author)` call the page makes. */
  datatype CommentCall = CommentCall(postId: string, content: string, author: string)

  /** The `updatePost(id, data)` call the page makes. */
  datatype SaveCall = SaveCall(postId: string, data: PostStore.Patch)

  /** `setPost(prev => prev ? { ...prev, comments: [...prev.comments, comment] } : null)`:
      the local copy grows exactly as the server's copy did. */
  function AppendLocal(prev: Option<Post>, c: Comment): (r: Option<Post>)
    ensures prev.None? ==> r.None?
    ensures prev.Some? ==> r == Some(PostStore.WithComment(prev.value, c))
  {
    match prev
    case None => None
    case Some(p) => Some(p.(comments := p.comments + [c]))
  }

  /** The edit form filled from a post: its six writable fields, nothing else. */
  function EditBuffer(p: Post): (m: PostStore.Patch)
    ensures forall f :: f in m && m[f] == PostStore.FieldOf(p, f)
  {
    PostStore.PatchOfDraft(PostStore.DraftOf(p))
  }

  /** Saving the edit form untouched asks the server for no change, provided the post's read
      time matched its content. */
  lemma SaveUntouchedBufferIsIdentity(p: Post)
    requires PostStore.ReadTimeConsistent(p) || p.content == ""
    ensures PostStore.ApplyPatch(p, EditBuffer(p)) == p
  {
    PostStore.SaveUnchangedIsIdentity(p);
  }

  class DetailPage {
    var post: Option<Post>
    var commentText: string
    var isSubmittingComment: bool
    var isEditing: bool
    var editFormData: PostStore.Patch
    var isSaving: bool

    constructor ()
      ensures post == None && commentText == "" && !isSubmittingComment
      ensures !isEditing && editFormData == map[] && !isSaving
    {
      post, commentText, isSubmittingComment := None, "", false;
      isEditing, editFormData, isSaving := false, map[], false;
    }

    /** The load on mount: the fetched post is shown; a failed load is logged and changes nothing. */
    method Load(loaded: Fetched<Post>)
      modifies this
      ensures post == if loaded.Loaded? then Some(loaded.value) else old(post)
      ensures commentText == old(commentText) && isSubmittingComment == old(isSubmittingComment)
      ensures isEditing == old(isEditing) && editFormData == old(editFormData) && isSaving == old(isSaving)
    {
      if loaded.Loaded? {
        post := Some(loaded.value);
      }
    }

    /** The comment box's change handler. */
    method TypeComment(text: string)
      modifies this
      ensures commentText == text
      ensures post == old(post) && isSubmittingComment == old(isSubmittingComment)
      ensures isEditing == old(isEditing) && editFormData == old(editFormData) && isSaving == old(isSaving)
    {
      commentText := text;
    }

    /** `handleCommentSubmit`: a comment of spaces only is not sent. Otherwise the call is made;
        on success the comment the server returned is appended locally and the box cleared, on
        failure the post and the box stay as they were. `reply` is what the call gets back. */
    method HandleCommentSubmit(reply: Fetched<Comment>) returns (call: Option<CommentCall>)
      requires post.Some?
      modifies this
      ensures IsBlank(old(commentText)) ==> call == None && unchanged(this)
      ensures !IsBlank(old(commentText)) ==>
        call == Some(CommentCall(old(post).value.id, old(commentText), GuestAuthor)) &&
        !isSubmittingComment &&
        isEditing == old(isEditing) && editFormData == old(editFormData) && isSaving == old(isSaving)
      ensures !IsBlank(old(commentText)) && reply.Loaded? ==>
        post == AppendLocal(old(post), reply.value) && commentText == ""
      ensures !IsBlank(old(commentText)) && reply.Failed? ==>
        post == old(post) && commentText == old(commentText)
    {
      TrimEmptyIff(commentText);
      if Trim(commentText) == "" {
        call := None;
        return;
      }
      isSubmittingComment := true;
      call := Some(CommentCall(post.value.id, commentText, GuestAuthor));
      match reply
      case Loaded(c) =>
        post := AppendLocal(post, c);
        commentText := "";
        isSubmittingComment := false;
      case Failed =>
        isSubmittingComment := false;
    }

    /** `handleEdit`: editing mode, with the form holding the post's six writable fields. */
    method HandleEdit()
      requires post.Some?
      modifies this
      ensures isEditing && post == old(post)
      ensures forall f :: f in editFormData && editFormData[f] == PostStore.FieldOf(post.value, f)
      ensures commentText == old(commentText)
      ensures isSubmittingComment == old(isSubmittingComment) && isSaving == old(isSaving)
    {
      isEditing := true;
      editFormData := EditBuffer(post.value);
    }

    /** An edit form field's change handler. */
    method EditField(f: PostStore.Field, value: string)
      modifies this
      ensures editFormData == old(editFormData)[f := value]
      ensures post == old(post) && commentText == old(commentText) && isEditing == old(isEditing)
      ensures isSubmittingComment == old(isSubmittingComment) && isSaving == old(isSaving)
    {
      editFormData := editFormData[f := value];
    }

    /** `handleSaveEdit`: the form is sent; on success the server's post replaces the local one
        and editing ends, on failure the local post and the mode stay. `reply` is what the call
        gets back. */
    method HandleSaveEdit(reply: Fetched<Post>) returns (call: SaveCall)
      requires post.Some?
      modifies this
      ensures call == SaveCall(old(post).value.id, old(editFormData))
      ensures reply.Loaded? ==> post == Some(reply.value) && !isEditing
      ensures reply.Failed? ==> post == old(post) && isEditing == old(isEditing)
      ensures !isSaving && editFormData == old(editFormData)
      ensures commentText == old(commentText) && isSubmittingComment == old(isSubmittingComment)
    {
      isSaving := true;
      call := SaveCall(post.value.id, editFormData);
      match reply
      case Loaded(q) =>
        post := Some(q);
        isEditing := false;
        isSaving := false;
      case Failed =>
        isSaving := false;
    }

    /** `handleCancelEdit`: leaves editing mode with an empty form. */
    method HandleCancelEdit()
      modifies this
      ensures !isEditing && editFormData == map[]
      ensures post == old(post) && commentText == old(commentText)
      ensures isSubmittingComment == old(isSubmittingComment) && isSaving == old(isSaving)
    {
      isEditing := false;
      editFormData := map[];
    }
  }
}
