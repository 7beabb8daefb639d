/** The new-thread form (src/pages/CreateThread.tsx): its chain of checks and
    what it does with the backend's answer. */
module CreateThread {
  import opened Common

  const TitleRequired: string := "Title is required"
  const TitleTooShort: string := "Title must be at least 5 characters"
  const ContentRequired: string := "Content is required"
  const ContentTooShort: string := "Content must be at least 20 characters"
  const CreateFailed: string := "Failed to create thread. Please try again."

  /** The form is acceptable: non-blank title of at least 5 code units and
      non-blank content of at least 20, both lengths counted before trimming. */
  predicate Acceptable(title: string, content: string) {
    !IsBlank(title) && Utf16Length(title) >= 5 && !IsBlank(content) && Utf16Length(content) >= 20
  }

  /** The checks of `handleSubmit`, in order; the first failing one is reported. */
  function ValidateThread(title: string, content: string): (error: Option<string>)
    ensures error == None <==> Acceptable(title, content)
    ensures IsBlank(title) ==> error == Some(TitleRequired)
    ensures !IsBlank(title) && Utf16Length(title) < 5 ==> error == Some(TitleTooShort)
    ensures !IsBlank(title) && Utf16Length(title) >= 5 && IsBlank(content) ==> error == Some(ContentRequired)
    ensures !IsBlank(title) && Utf16Length(title) >= 5 && !IsBlank(content) && Utf16Length(content) < 20 ==>
              error == Some(ContentTooShort)
  {
    if IsBlank(title) then Some(TitleRequired)
    else if Utf16Length(title) < 5 then Some(TitleTooShort)
    else if IsBlank(content) then Some(ContentRequired)
    else if Utf16Length(content) < 20 then Some(ContentTooShort)
    else None
  }

  /** Padding counts toward the length checks: a title that is only a single
      visible character plus four spaces passes. */
  lemma LengthIsUntrimmed(c: char, content: string)
    requires !IsWhitespace(c)
    requires !IsBlank(content) && Utf16Length(content) >= 20
    ensures ValidateThread([c, ' ', ' ', ' ', ' '], content) == None
  {
    var title := [c, ' ', ' ', ' ', ' '];
    BlankIffAllWhitespace(title);
  }

  /** A title made only of whitespace is reported as missing, whatever its length. */
  lemma WhitespaceTitleIsMissing(title: string, content: string)
    requires forall i :: 0 <= i < |title| ==> IsWhitespace(title[i])
    ensures ValidateThread(title, content) == Some(TitleRequired)
  {
    BlankIffAllWhitespace(title);
  }

  /** Lengths are counted in UTF-16 code units: three emoji make a title of
      six, which is long enough. */
  lemma EmojiTitleLongEnough(content: string)
    requires !IsBlank(content) && Utf16Length(content) >= 20
    ensures ValidateThread("\U{1F600}\U{1F600}\U{1F600}", content) == None
  {
    var title := "\U{1F600}\U{1F600}\U{1F600}";
    assert Utf16Length(title) == 6;
    BlankIffAllWhitespace(title);
    assert !IsWhitespace(title[0]);
  }

  /** The fields of a `createThread` reply the form reads; `thread` is the id of the new thread. */
  datatype CreateReply = CreateReply(success: bool, thread: Option<int>, message: Option<string>)

  /** The data `createThread` sends. */
  datatype CreateRequest = CreateRequest(categoryId: int, title: string, content: string)

  /** The thread id handed to `onThreadCreated`, if any. */
  function CreatedThread(reply: Reply<CreateReply>): (id: Option<int>)
    ensures id.Some? <==> reply.Returned? && reply.body.success && reply.body.thread.Some?
    ensures id.Some? ==> id == reply.body.thread
  {
    match reply
    case Returned(r) => if r.success then r.thread else None
    case Threw(_) => None
  }

  /** The error shown after the request; empty when a thread was created. */
  function CreateError(reply: Reply<CreateReply>): string {
    match reply
    case Returned(r) => if r.success && r.thread.Some? then "" else OrElse(r.message, CreateFailed)
    case Threw(_) => CreateFailed
  }

  /** After the request, exactly one of two things happens: the page moves to
      the new thread, or a non-empty error is shown. */
  lemma CreatedOrError(reply: Reply<CreateReply>)
    ensures CreatedThread(reply).Some? <==> CreateError(reply) == ""
    ensures reply.Threw? ==> CreateError(reply) == CreateFailed
  {
  }

  /** The form's state. */
  class Form {
    var selectedCategory: int
    var title: string
    var content: string
    var error: string

    constructor ()
      ensures selectedCategory == 1
      ensures title == "" && content == "" && error == ""
    {
      selectedCategory := 1;
      title := "";
      content := "";
      error := "";
    }

    /** `handleSubmit`: the error is cleared, the checks run, and only if they
        all pass is the thread requested. `created` is the id passed to `onThreadCreated`. */
    method HandleSubmit(reply: Reply<CreateReply>) returns (request: Option<CreateRequest>, created: Option<int>)
      modifies this
      ensures request.Some? <==> Acceptable(title, content)
      ensures request.Some? ==> request.value == CreateRequest(selectedCategory, title, content)
      ensures ValidateThread(title, content).Some? ==> error == ValidateThread(title, content).value && created == None
      ensures request.Some? ==> created == CreatedThread(reply) && error == CreateError(reply)
      ensures title == old(title) && content == old(content) && selectedCategory == old(selectedCategory)
    {
      error := "";
      created := None;
      var invalid := ValidateThread(title, content);
      if invalid.Some? {
        error := invalid.value;
        return None, None;
      }
      request := Some(CreateRequest(selectedCategory, title, content));
      match reply {
        case Returned(r) =>
          if r.success && r.thread.Some? {
            created := r.thread;
          } else {
            error := OrElse(r.message, CreateFailed);
          }
        case Threw(_) =>
          error := CreateFailed;
      }
    }
  }
}
