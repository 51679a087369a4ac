/**
 * FrontEnd/src/components/UserForm.tsx: the zod schema of the form, the
 * submit guard, the avatar upload with its simulated progress counter, the
 * upload file name and the avatar URL that is submitted.
 */
module UserForm {
  import opened Wrappers
  import opened Strings

  /** The size limit of `file.size < 5 * 1024 * 1024`. */
  const MaxAvatarBytes: nat := 5 * 1024 * 1024

  /** The parts of a browser `File` the form reads. */
  datatype FileInfo = FileInfo(name: string, size: nat, mime: string)

  /**
   * The form values: `avatar` is the chosen `FileList`, if any. Whether the
   * email passes zod's email check is given, not computed.
   */
  datatype FormInput = FormInput(name: string, emailOk: bool, role: Option<string>, avatar: Option<seq<FileInfo>>)

  /** A validation error at a field path. */
  datatype Issue = Issue(path: string, message: string)

  // --------------------------------------------------------------- schema

  /** `z.string().min(2, ...).max(50, ...)`. */
  function NameIssues(name: string): (issues: seq<Issue>)
    ensures issues == [] <==> 2 <= |name| <= 50
  {
    if |name| < 2 then [Issue("name", "Name must be at least 2 characters")]
    else if |name| > 50 then [Issue("name", "Name too long")]
    else []
  }

  function EmailIssues(emailOk: bool): seq<Issue> {
    if emailOk then [] else [Issue("email", "Invalid email address")]
  }

  /** `z.enum(['user', 'admin']).optional()`. */
  predicate RoleAccepted(role: Option<string>) {
    role.None? || role.value in {"user", "admin"}
  }

  function RoleIssues(role: Option<string>): seq<Issue> {
    if RoleAccepted(role) then []
    else [Issue("role", "Invalid enum value. Expected 'user' | 'admin', received '" + role.value + "'")]
  }

  /** `files && files.length > 0 ? files[0] : undefined`. */
  function PickAvatar(files: Option<seq<FileInfo>>): (file: Option<FileInfo>)
    ensures file.None? <==> files.None? || files.value == []
    ensures file.Some? ==> file.value == files.value[0]
  {
    if files.Some? && |files.value| > 0 then Some(files.value[0]) else None
  }

  /** The two refinements on the chosen file; both run, so both messages can appear. */
  function AvatarIssues(file: Option<FileInfo>): seq<Issue> {
    (if file.Some? && !(file.value.size < MaxAvatarBytes) then [Issue("avatar", "Max file size is 5MB")] else [])
    + (if file.Some? && !StartsWith(file.value.mime, "image/") then [Issue("avatar", "Only image files allowed")] else [])
  }

  /**
   * All issues of the schema. The object-level refinement ("Name is
   * required") is skipped when a field failed in a way that aborts parsing,
   * which among these is only an unknown role.
   */
  function Validate(form: FormInput): seq<Issue> {
    NameIssues(form.name) + EmailIssues(form.emailOk) + RoleIssues(form.role)
    + AvatarIssues(PickAvatar(form.avatar))
    + (if RoleAccepted(form.role) && Trim(form.name) == "" then [Issue("name", "Name is required")] else [])
  }

  /** `isValid` of the form. */
  predicate IsValid(form: FormInput) {
    Validate(form) == []
  }

  /** A chosen avatar is accepted when under 5 MiB and of an image MIME type. */
  predicate AvatarAccepted(file: Option<FileInfo>) {
    file.None? || (file.value.size < MaxAvatarBytes && StartsWith(file.value.mime, "image/"))
  }

  /**
   * The form is valid exactly when the name has 2 to 50 characters and is not
   * all white space, the email passes, the role is absent or 'user'/'admin',
   * and the first chosen file, if any, is an image under 5 MiB.
   */
  lemma ValidIff(form: FormInput)
    ensures IsValid(form) <==>
      && 2 <= |form.name| <= 50 && !IsBlank(form.name)
      && form.emailOk
      && RoleAccepted(form.role)
      && AvatarAccepted(PickAvatar(form.avatar))
  {
    TrimEmptyIffBlank(form.name);
  }

  /** A name of allowed length made only of white space is reported as "Name is required", and nothing else is. */
  lemma BlankNameIsRequired(form: FormInput)
    requires 2 <= |form.name| <= 50 && IsBlank(form.name)
    requires form.emailOk && RoleAccepted(form.role) && AvatarAccepted(PickAvatar(form.avatar))
    ensures Validate(form) == [Issue("name", "Name is required")]
  {
    TrimEmptyIffBlank(form.name);
  }

  /** Only the first chosen file is checked: later files in the list never cause an issue. */
  lemma OnlyFirstFileChecked(form: FormInput, more: seq<FileInfo>)
    requires form.avatar.Some? && form.avatar.value != []
    ensures Validate(form.(avatar := Some(form.avatar.value[..1] + more))) == Validate(form)
  {
  }

  /** The submit button: `disabled={uploading || !isValid}`. */
  predicate SubmitEnabled(uploading: bool, form: FormInput) {
    !uploading && IsValid(form)
  }

  // --------------------------------------------------------- file naming

  /** `${crypto.randomUUID()}.${file.name.split('.').pop()}`, with the UUID given. */
  function UploadFileName(uuid: string, fileName: string): (r: string)
    ensures |r| > |uuid| && r[..|uuid|] == uuid && r[|uuid|] == '.'
  {
    uuid + "." + LastField(fileName, '.')
  }

  /**
   * The name is the UUID, a dot and the extension: the text after the last
   * dot, or the whole original name when it has no dot.
   */
  lemma UploadFileNameExtension(uuid: string, base: string, ext: string, plain: string)
    requires '.' !in ext && '.' !in plain
    ensures UploadFileName(uuid, base + "." + ext) == uuid + "." + ext
    ensures UploadFileName(uuid, plain) == uuid + "." + plain
  {
    LastFieldAfterSeparator(base, ext, '.');
    LastFieldIsSuffix(plain, '.');
  }

  /** The extension is a dot-free suffix of the original name. */
  lemma UploadFileNameSuffix(uuid: string, fileName: string)
    ensures var ext := UploadFileName(uuid, fileName)[|uuid| + 1..];
      '.' !in ext && |ext| <= |fileName| && fileName[|fileName| - |ext|..] == ext
  {
    LastFieldIsSuffix(fileName, '.');
    assert UploadFileName(uuid, fileName)[|uuid| + 1..] == LastField(fileName, '.');
  }

  // ------------------------------------------------------------- submit

  /** `err.message || fallback`. */
  function ErrorText(message: string, fallback: string): (text: string)
    ensures text != "" || fallback == ""
    ensures message != "" ==> text == message
  {
    if message != "" then message else fallback
  }

  /**
   * The `avatar_url` that `onFormSubmit` passes on: the uploaded file's URL
   * when a file was chosen, otherwise the current preview; a failed upload
   * submits nothing and yields its error.
   */
  function SubmittedAvatarUrl(preview: string, file: Option<FileInfo>, upload: FileInfo -> Result<string, string>)
    : (r: Result<string, string>)
    ensures file.None? ==> r == Success(preview)
    ensures file.Some? ==> r == upload(file.value)
  {
    if file.Some? then upload(file.value) else Success(preview)
  }

  // ------------------------------------------------------- upload state

  /** `Math.min(prev + 10, 90)`. */
  function NextProgress(p: nat): (q: nat)
    ensures q <= 90
    ensures p < 80 ==> q == p + 10
    ensures p >= 80 ==> q == 90
  {
    if p + 10 < 90 then p + 10 else 90
  }

  /** The progress after `k` ticks from `p`. */
  function Ticks(p: nat, k: nat): nat
    decreases k
  {
    if k == 0 then p else Ticks(NextProgress(p), k - 1)
  }

  /** From 0, progress climbs by 10 per tick and stops at 90. */
  lemma {:induction false} TicksFromZero(k: nat)
    ensures Ticks(0, k) == if 10 * k < 90 then 10 * k else 90
  {
    TicksFrom(0, k);
  }

  lemma {:induction false} TicksFrom(p: nat, k: nat)
    requires p % 10 == 0 && p <= 90
    ensures Ticks(p, k) == if p + 10 * k < 90 then p + 10 * k else 90
    decreases k
  {
    if k > 0 {
      TicksFrom(NextProgress(p), k - 1);
    }
  }

  /**
   * The upload-related state of the form: `uploading`, `uploadProgress`,
   * `error`, and the timers still pending: progress intervals not cleared and
   * one-second resets not yet fired.
   */
  class Upload {
    var uploading: bool
    var progress: nat
    var error: Option<string>
    var liveIntervals: nat
    var pendingResets: nat

    /** While an upload is in flight progress stays at most 90; it never exceeds 100. */
    predicate Valid()
      reads this
    {
      progress <= 100 && (uploading ==> progress <= 90)
    }

    constructor ()
      ensures Valid()
      ensures !uploading && progress == 0 && error == None && liveIntervals == 0 && pendingResets == 0
    {
      uploading := false;
      progress := 0;
      error := None;
      liveIntervals := 0;
      pendingResets := 0;
    }

    /** `uploadAvatar` up to its `await`: flags set, progress 0, error cleared, one interval started. */
    method Begin()
      modifies this
      ensures Valid()
      ensures uploading && progress == 0 && error == None
      ensures liveIntervals == old(liveIntervals) + 1 && pendingResets == old(pendingResets)
    {
      uploading := true;
      progress := 0;
      error := None;
      liveIntervals := liveIntervals + 1;
    }

    /** One firing of a live interval. */
    method Tick()
      requires Valid() && liveIntervals > 0
      modifies this
      ensures Valid()
      ensures progress == NextProgress(old(progress))
      ensures uploading == old(uploading) && error == old(error)
      ensures liveIntervals == old(liveIntervals) && pendingResets == old(pendingResets)
    {
      progress := NextProgress(progress);
    }

    /**
     * The storage call returned `reply` (the stored path, or the error's
     * message): the interval is cleared, progress is 100, on error the
     * message is shown; then `finally` ends the upload and schedules a reset.
     * The result is the public URL of the stored path, or the error thrown.
     */
    method Returned(reply: Result<string, string>, publicUrl: string -> string) returns (url: Result<string, string>)
      requires liveIntervals > 0
      modifies this
      ensures Valid()
      ensures !uploading && progress == 100
      ensures liveIntervals == old(liveIntervals) - 1 && pendingResets == old(pendingResets) + 1
      ensures reply.Success? ==> url == Success(publicUrl(reply.value)) && error == old(error)
      ensures reply.Failure? ==> url == reply && error == Some(ErrorText(reply.error, "Upload failed"))
    {
      liveIntervals := liveIntervals - 1;
      progress := 100;
      if reply.Failure? {
        error := Some(ErrorText(reply.error, "Upload failed"));
        url := reply;
      } else {
        url := Success(publicUrl(reply.value));
      }
      uploading := false;
      pendingResets := pendingResets + 1;
    }

    /**
     * The storage call itself threw: the catch shows the message and
     * `finally` ends the upload, but the interval is never cleared and keeps
     * ticking.
     */
    method Threw(message: string) returns (url: Result<string, string>)
      requires Valid()
      modifies this
      ensures Valid()
      ensures !uploading && progress == old(progress) && error == Some(ErrorText(message, "Upload failed"))
      ensures liveIntervals == old(liveIntervals) && pendingResets == old(pendingResets) + 1
      ensures url == Failure(message)
    {
      error := Some(ErrorText(message, "Upload failed"));
      uploading := false;
      pendingResets := pendingResets + 1;
      url := Failure(message);
    }

    /** A scheduled `setTimeout(() => setUploadProgress(0), 1000)` fires. */
    method ResetFires()
      requires pendingResets > 0 && Valid()
      modifies this
      ensures Valid()
      ensures progress == 0 && pendingResets == old(pendingResets) - 1
      ensures uploading == old(uploading) && error == old(error) && liveIntervals == old(liveIntervals)
    {
      progress := 0;
      pendingResets := pendingResets - 1;
    }

    /** The catch of `onFormSubmit`: `setError(err.message || 'Submission failed')`. */
    method SubmitFailed(message: string)
      requires Valid()
      modifies this
      ensures Valid()
      ensures error == Some(ErrorText(message, "Submission failed"))
      ensures uploading == old(uploading) && progress == old(progress)
      ensures liveIntervals == old(liveIntervals) && pendingResets == old(pendingResets)
    {
      error := Some(ErrorText(message, "Submission failed"));
    }
  }
}
