/**
 * The create-post server action (app/forum/actions.ts, `createPost`): the
 * required-field guard and the single insert into `forum_posts`.
 */
module ForumActions {
  import opened Wrappers
  import opened Text

  /** The submitted form: `formData.get(name)`, `None` when absent. */
  datatype PostForm = PostForm(title: Option<string>, content: Option<string>, category: Option<string>)

  datatype PostRow = PostRow(title: string, content: string, category: string, userId: string)

  datatype CreateOutcome = Redirected(url: string) | Failed(error: string) | Created

  const LoginUrl := "/login?message=You must be logged in to post"
  const MissingFields := "Please fill in all required fields."
  const InsertFallback := "Failed to create post. Please try again."

  /** The inserted record, when every required field is filled. */
  function InsertRecord(form: PostForm, userId: string): (r: Option<PostRow>)
    ensures r.Some? <==> Filled(form.title) && Filled(form.content) && Filled(form.category)
    ensures r.Some? ==>
      r.value.title == form.title.value && r.value.content == form.content.value
      && r.value.category == form.category.value && r.value.userId == userId
    ensures r.Some? ==> r.value.title != "" && r.value.content != "" && r.value.category != ""
  {
    if Filled(form.title) && Filled(form.content) && Filled(form.category) then
      Some(PostRow(form.title.value, form.content.value, form.category.value, userId))
    else None
  }

  class PostTable {
    var rows: seq<PostRow>

    constructor (rows: seq<PostRow>)
      ensures this.rows == rows
    {
      this.rows := rows;
    }

    /** `createPost(formData)` for the signed-in `user`; `insertError` is the insert's error message. */
    method CreatePost(user: Option<string>, form: PostForm, insertError: Option<string>) returns (out: CreateOutcome)
      modifies this
      ensures user.None? ==> out == Redirected(LoginUrl) && rows == old(rows)
      ensures user.Some? && InsertRecord(form, user.value).None? ==> out == Failed(MissingFields) && rows == old(rows)
      ensures user.Some? && InsertRecord(form, user.value).Some? && insertError.Some? ==>
        out == Failed(if insertError.value != "" then insertError.value else InsertFallback) && rows == old(rows)
      ensures user.Some? && InsertRecord(form, user.value).Some? && insertError.None? ==>
        out == Created && rows == old(rows) + [InsertRecord(form, user.value).value]
      ensures out == Created <==> user.Some? && InsertRecord(form, user.value).Some? && insertError.None?
    {
      if user.None? {
        return Redirected(LoginUrl);
      }
      var row := InsertRecord(form, user.value);
      if row.None? {
        return Failed(MissingFields);
      }
      if insertError.Some? {
        return Failed(if insertError.value != "" then insertError.value else InsertFallback);
      }
      rows := rows + [row.value];
      out := Created;
    }
  }
}
