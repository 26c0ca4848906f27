/** What the chat window makes of the backend's answers, and the records it builds
    from them: the result fetch, the status poll, the submission of a generation
    request, and the messages, outputs and previews each one adds to the store.
    Every answer is an input value; nothing here performs a request. */
module Responses {
  import opened Base
  import opened Text
  import opened Model
  import opened Store
  import opened Workflow
  import opened Display

  /** `Response.ok`: the status is in the 2xx range. */
  predicate Ok(status: int) {
    200 <= status <= 299
  }

  // ---------------------------------------------------------------- result fetch

  const RetryDelayMs := 2000
  const FetchFailedText := "Generation completed but failed to fetch results. Please check the output directory."

  /** The parsed body of `/api/result/<session>`. */
  datatype ResultPayload = ResultPayload(
    message: Option<string>,
    slides: Option<seq<string>>,
    pptUrl: Option<string>,
    posterUrl: Option<string>)

  /** The settled result request: a status with the body when it parses as JSON, or a
      rejected request. */
  datatype ResultResponse =
    | ResultHttp(status: int, body: Option<ResultPayload>)
    | ResultThrown

  /** The three ways a result fetch ends. */
  datatype ResultOutcome =
    | Delivered(payload: ResultPayload)   // record the result
    | NotReady                            // schedule one retry
    | Unavailable                         // report the failure

  /** The branches in the order the fetch tests them: `ok` first, then 202. A 2xx body
      that does not parse lands in the error handler like a thrown request. */
  function ClassifyResultAsWritten(r: ResultResponse): (o: ResultOutcome)
    ensures o.Delivered? <==> r.ResultHttp? && Ok(r.status) && r.body.Some?
    ensures o.Delivered? ==> o.payload == r.body.value
  {
    match r
    case ResultThrown => Unavailable
    case ResultHttp(status, body) =>
      if Ok(status) then (if body.Some? then Delivered(body.value) else Unavailable)
      else if status == 202 then NotReady
      else Unavailable
  }

  /** Because 202 is itself a 2xx status, the retry branch is never taken. */
  lemma AsWrittenNeverRetries(r: ResultResponse)
    ensures ClassifyResultAsWritten(r) != NotReady
  {
  }

  /** A "not ready yet" answer is recorded as if it were the result. */
  lemma AsWrittenRecordsNotReady(p: ResultPayload)
    ensures ClassifyResultAsWritten(ResultHttp(202, Some(p))) == Delivered(p)
  {
  }

  /** The fetch with 202 tested before the other 2xx statuses. */
  function ClassifyResult(r: ResultResponse): (o: ResultOutcome)
    ensures o == NotReady <==> r.ResultHttp? && r.status == 202
    ensures o.Delivered? <==> r.ResultHttp? && Ok(r.status) && r.status != 202 && r.body.Some?
    ensures o.Delivered? ==> o.payload == r.body.value
  {
    match r
    case ResultThrown => Unavailable
    case ResultHttp(status, body) =>
      if status == 202 then NotReady
      else if Ok(status) && body.Some? then Delivered(body.value)
      else Unavailable
  }

  /** Apart from 202 the corrected fetch takes the branch the written one takes. */
  lemma ClassifiersAgreeBesideNotReady(r: ResultResponse)
    requires !(r.ResultHttp? && r.status == 202)
    ensures ClassifyResult(r) == ClassifyResultAsWritten(r)
  {
  }

  /** The assistant message carrying the result, with the configuration snapshot. */
  function ResultMessage(p: ResultPayload, cfg: Config, id: Id, now: int): (m: Message)
    ensures m.id == id && m.role == Assistant && !m.isError && m.files == []
    ensures m.content == p.message.GetOr("") && m.config == Some(cfg) && m.slides == p.slides.GetOr([])
    ensures Present(m.pptUrl) <==> Present(p.pptUrl)
    ensures Present(m.posterUrl) <==> Present(p.posterUrl)
    ensures Present(m.pptUrl) ==> m.pptUrl == p.pptUrl
    ensures Present(m.posterUrl) ==> m.posterUrl == p.posterUrl
    ensures !Present(p.pptUrl) ==> m.pptUrl == None
    ensures !Present(p.posterUrl) ==> m.posterUrl == None
    ensures m.timestamp == Some(now) && SelfDuplicate(m)
  {
    Message(id, Assistant, p.message.GetOr(""), [], Some(cfg), Some(now), false,
            OrNull(p.pptUrl), OrNull(p.posterUrl), p.slides.GetOr([]))
  }

  /** The names of the files of conversation `convId`, or none when it is missing. */
  function SourceFiles(convs: seq<Conversation>, convId: Id): (r: seq<string>)
    ensures FindConversation(convs, convId).None? ==> r == []
    ensures FindConversation(convs, convId).Some? ==>
              var c := convs[FindConversation(convs, convId).value];
              |r| == |c.files| && forall k :: 0 <= k < |r| ==> r[k] == c.files[k].name
  {
    match FindConversation(convs, convId)
    case None => []
    case Some(k) => seq(|convs[k].files|, j requires 0 <= j < |convs[k].files| => convs[k].files[j].name)
  }

  /** The generated-output record: the length only for slides, the density only for
      posters. */
  function ResultOutput(p: ResultPayload, cfg: Config, sourceFiles: seq<string>, id: Id, now: int): (o: GeneratedOutput)
    ensures o.id == id && o.outputType == cfg.output && o.style == cfg.style && o.content == cfg.content
    ensures o.length.Some? <==> cfg.output == "slides"
    ensures o.length.Some? ==> o.length.value == cfg.length
    ensures o.density.Some? <==> cfg.output == "poster"
    ensures o.density.Some? ==> o.density.value == cfg.density
    ensures Present(o.pptUrl) <==> Present(p.pptUrl)
    ensures Present(o.posterUrl) <==> Present(p.posterUrl)
    ensures o.pptUrl == OrNull(p.pptUrl) && o.posterUrl == OrNull(p.posterUrl)
    ensures o.sourceFiles == sourceFiles && o.slides == p.slides.GetOr([]) && o.timestamp == now
  {
    GeneratedOutput(id, cfg.output, cfg.style, cfg.content,
                    if cfg.output == "slides" then Some(cfg.length) else None,
                    if cfg.output == "poster" then Some(cfg.density) else None,
                    OrNull(p.pptUrl), OrNull(p.posterUrl), p.slides.GetOr([]), sourceFiles, now)
  }

  /** Recording a delivered result: the assistant message, then the output. */
  function ApplyResult(convs: seq<Conversation>, convId: Id, p: ResultPayload, cfg: Config,
                       msgId: Id, outId: Id, now: int): (r: seq<Conversation>)
    ensures |r| == |convs|
    ensures forall i :: 0 <= i < |r| && convs[i].id != convId ==> r[i] == convs[i]
    ensures forall i :: 0 <= i < |r| && convs[i].id == convId ==>
              var m := ResultMessage(p, cfg, msgId, now);
              var o := ResultOutput(p, cfg, SourceFiles(convs, convId), outId, now);
              var addsMessage := !HasDuplicate(convs[i].messages, m);
              var addsOutput := !HasArtifact(convs[i].generatedOutputs, o);
              && r[i].messages == (if addsMessage then convs[i].messages + [m] else convs[i].messages)
              && r[i].generatedOutputs == (if addsOutput then convs[i].generatedOutputs + [o] else convs[i].generatedOutputs)
              && r[i].updatedAt == (if addsMessage || addsOutput then now else convs[i].updatedAt)
              && r[i].(messages := [], generatedOutputs := [], updatedAt := 0)
                 == convs[i].(messages := [], generatedOutputs := [], updatedAt := 0)
  {
    var withMessage := AddMessage(convs, convId, ResultMessage(p, cfg, msgId, now), now);
    AppendOutput(withMessage, convId, ResultOutput(p, cfg, SourceFiles(convs, convId), outId, now), now)
  }

  /** A result with a truthy URL recorded twice (a retry racing the first fetch) leaves
      one output for it. */
  lemma ApplyResultTwiceOneOutput(convs: seq<Conversation>, convId: Id, p: ResultPayload,
                                  cfg1: Config, m1: Id, o1: Id, t1: int,
                                  cfg2: Config, m2: Id, o2: Id, t2: int)
    requires Present(p.pptUrl) || Present(p.posterUrl)
    ensures var once := ApplyResult(convs, convId, p, cfg1, m1, o1, t1);
      var twice := ApplyResult(once, convId, p, cfg2, m2, o2, t2);
      forall i :: 0 <= i < |convs| ==> twice[i].generatedOutputs == once[i].generatedOutputs
  {
    var once := ApplyResult(convs, convId, p, cfg1, m1, o1, t1);
    var twice := ApplyResult(once, convId, p, cfg2, m2, o2, t2);
    var mid := AddMessage(once, convId, ResultMessage(p, cfg2, m2, t2), t2);
    var out1 := ResultOutput(p, cfg1, SourceFiles(convs, convId), o1, t1);
    var out2 := ResultOutput(p, cfg2, SourceFiles(once, convId), o2, t2);
    var before := AddMessage(convs, convId, ResultMessage(p, cfg1, m1, t1), t1);
    forall i | 0 <= i < |convs| ensures twice[i].generatedOutputs == once[i].generatedOutputs {
      if convs[i].id == convId {
        assert mid[i].generatedOutputs == once[i].generatedOutputs;
        var outs := once[i].generatedOutputs;
        if HasArtifact(before[i].generatedOutputs, out1) {
          var k :| 0 <= k < |before[i].generatedOutputs| && SameArtifact(before[i].generatedOutputs[k], out1);
          assert outs[k] == before[i].generatedOutputs[k];
          assert SameArtifact(outs[k], out2);
        } else {
          assert outs[|outs| - 1] == out1;
          assert SameArtifact(outs[|outs| - 1], out2);
        }
        assert HasArtifact(mid[i].generatedOutputs, out2);
      }
    }
  }

  /** An assistant message outside the normal flow: an error, or a plain notice. */
  function NoticeMessage(id: Id, content: string, isError: bool, now: int): (m: Message)
    ensures m.id == id && m.role == Assistant && m.content == content && m.isError == isError
    ensures m.files == [] && m.pptUrl == None && m.posterUrl == None && m.timestamp == Some(now)
  {
    Message(id, Assistant, content, [], None, Some(now), isError, None, None, [])
  }

  // ---------------------------------------------------------------- status poll

  /** The settled status request. */
  datatype StatusResponse =
    | StatusHttp(status: int, body: Option<StatusPayload>)
    | StatusThrown

  /** The report a tick acts on; a non-2xx status, a body that does not parse and a
      rejected request are all swallowed. */
  function StatusReport(r: StatusResponse): (p: Option<StatusPayload>)
    ensures p.Some? <==> r.StatusHttp? && Ok(r.status) && r.body.Some?
    ensures p.Some? ==> p.value == r.body.value
  {
    match r
    case StatusThrown => None
    case StatusHttp(status, body) => if Ok(status) then body else None
  }

  // ---------------------------------------------------------------- submission

  const ConflictPhrase := "Another session is already running"
  const ConflictDefault := "Another session is already running. Please wait for it to complete."
  const SendErrorDefault := "Sorry, an error occurred. Please try again later."
  const RegenerateErrorText := "Failed to regenerate. Please try again."
  const CancelledText := "Generation cancelled by user."
  const HttpErrorPrefix := "HTTP error! status: "

  /** The parsed body of `/api/chat`: on success the session and the stored files, on
      an error status the `detail` (all absent when the error body does not parse). */
  datatype SubmitBody = SubmitBody(sessionId: Option<string>, uploaded: seq<UploadedFile>, detail: Option<string>)

  /** The settled submission. A 2xx body that does not parse is a `SubmitThrown` whose
      message is the parser's. */
  datatype SubmitResponse =
    | SubmitHttp(status: nat, body: SubmitBody)
    | SubmitAborted
    | SubmitThrown(message: string)

  datatype SubmitOutcome =
    | Accepted(sessionId: Option<string>, uploaded: seq<UploadedFile>)
    | Cancelled
    | Rejected(message: string)

  /** The number a string of decimal digits denotes. */
  function DigitsValue(s: string): int {
    if s == [] then 0 else 10 * DigitsValue(s[..|s| - 1]) + (s[|s| - 1] as int - '0' as int)
  }

  /** `String(n)`: the decimal digits of `n`, without leading zeros. */
  function NatText(n: nat): (r: string)
    ensures r != [] && forall k :: 0 <= k < |r| ==> '0' <= r[k] <= '9'
    ensures DigitsValue(r) == n
    ensures r[0] == '0' ==> r == "0"
  {
    var digit := ('0' as int + n % 10) as char;
    if n < 10 then [digit]
    else
      var front := NatText(n / 10);
      assert (front + [digit])[..|front|] == front;
      front + [digit]
  }

  /** The error a submission raises, or its session and stored files. */
  function ClassifySubmit(r: SubmitResponse): (o: SubmitOutcome)
    ensures o.Accepted? <==> r.SubmitHttp? && Ok(r.status)
    ensures o.Accepted? ==> o.sessionId == r.body.sessionId && o.uploaded == r.body.uploaded
    ensures o == Cancelled <==> r.SubmitAborted?
    ensures r.SubmitThrown? ==> o == Rejected(r.message)
    ensures r.SubmitHttp? && r.status == 409 ==> o == Rejected(OrElse(r.body.detail, ConflictDefault))
    ensures r.SubmitHttp? && !Ok(r.status) && r.status != 409 ==>
              o == Rejected(HttpErrorPrefix + NatText(r.status))
  {
    match r
    case SubmitAborted => Cancelled
    case SubmitThrown(message) => Rejected(message)
    case SubmitHttp(status, body) =>
      if Ok(status) then Accepted(body.sessionId, body.uploaded)
      else if status == 409 then Rejected(OrElse(body.detail, ConflictDefault))
      else Rejected(HttpErrorPrefix + NatText(status))
  }

  /** The text of the error message a failed submission appends: the error's own
      message only for a session conflict. */
  function SendErrorText(message: string): (r: string)
    ensures Contains(message, ConflictPhrase) ==> r == message
    ensures !Contains(message, ConflictPhrase) ==> r == SendErrorDefault
    ensures Contains(r, ConflictPhrase) || r == SendErrorDefault
  {
    if Contains(message, ConflictPhrase) then message else SendErrorDefault
  }

  /** A 409 without detail shows the conflict text itself. */
  lemma ConflictWithoutDetailShown(status: nat)
    requires status == 409
    ensures SendErrorText(ClassifySubmit(SubmitHttp(status, SubmitBody(None, [], None))).message) == ConflictDefault
  {
    assert ConflictDefault == ConflictPhrase + ". Please wait for it to complete.";
    assert OccursAt(ConflictDefault, ConflictPhrase, 0);
  }

  /** Any other error status shows the generic apology, never the status. */
  lemma OtherStatusHidden(status: nat, body: SubmitBody)
    requires !Ok(status) && status != 409
    ensures SendErrorText(ClassifySubmit(SubmitHttp(status, body)).message) == SendErrorDefault
  {
    var message := HttpErrorPrefix + NatText(status);
    assert forall k :: 0 <= k < |message| ==> message[k] != 'A' by {
      forall k | 0 <= k < |message| ensures message[k] != 'A' {
        if k >= |HttpErrorPrefix| {
          assert message[k] == NatText(status)[k - |HttpErrorPrefix|];
        }
      }
    }
    if Contains(message, ConflictPhrase) {
      var i :| 0 <= i <= |message| - |ConflictPhrase| && OccursAt(message, ConflictPhrase, i);
      OccursAtStart(message, ConflictPhrase, i);
      assert false;
    }
  }

  // ---------------------------------------------------------------- local previews

  /** A file picked by the user, with the object URL a preview handle would get. */
  datatype LocalFile = LocalFile(name: string, size: int, fileType: string, objectUrl: string)

  /** A PDF by MIME type or by a `.pdf` name in any case. */
  predicate IsPdf(f: LocalFile) {
    f.fileType == "application/pdf" || EndsWith(ToLower(f.name), ".pdf")
  }

  /** The preview record: a handle for PDFs only, no backend address yet, and a
      missing MIME type reported as PDF. */
  function Preview(f: LocalFile): (r: FileRef)
    ensures r.name == f.name && r.size == f.size
    ensures r.blobUrl.Some? <==> IsPdf(f)
    ensures r.url.None? && r.sessionId.None?
    ensures r.fileType != ""
    ensures f.fileType != "" ==> r.fileType == f.fileType
    ensures f.fileType == "" ==> r.fileType == "application/pdf"
    ensures r.blobUrl.Some? ==> r.blobUrl.value == f.objectUrl
  {
    FileRef(f.name, f.size, if f.fileType != "" then f.fileType else "application/pdf",
            None, if IsPdf(f) then Some(f.objectUrl) else None, None)
  }

  function Previews(files: seq<LocalFile>): (r: seq<FileRef>)
    ensures |r| == |files| && forall k :: 0 <= k < |r| ==> r[k] == Preview(files[k])
  {
    seq(|files|, k requires 0 <= k < |files| => Preview(files[k]))
  }

  /** The user's message, with its previews and the configuration snapshot. */
  function UserMessage(id: Id, text: string, files: seq<FileRef>, cfg: Config, now: int): (m: Message)
    ensures m.id == id && m.role == User && m.content == text && m.files == files
    ensures m.config == Some(cfg) && !m.isError && m.pptUrl == None && m.posterUrl == None
    ensures m.timestamp == Some(now) && SelfDuplicate(m)
  {
    Message(id, User, text, files, Some(cfg), Some(now), false, None, None, [])
  }

  /** Give conversation `convId` the first file's name without extension when `snapshot`
      shows it had no files yet. */
  function Retitle(convs: seq<Conversation>, snapshot: seq<Conversation>, convId: Id,
                   firstName: string, now: int): (r: seq<Conversation>)
    ensures |r| == |convs|
    ensures forall i :: 0 <= i < |r| && convs[i].id != convId ==> r[i] == convs[i]
    ensures var k := FindConversation(snapshot, convId);
      var retitled := k.Some? && snapshot[k.value].files == [];
      forall i :: 0 <= i < |r| && convs[i].id == convId ==>
        && r[i].title == (if retitled then StripExtension(firstName) else convs[i].title)
        && r[i].(title := convs[i].title, updatedAt := convs[i].updatedAt) == convs[i]
  {
    match FindConversation(snapshot, convId)
    case Some(k) =>
      if snapshot[k].files == [] then UpdateConversation(convs, convId, Patch(Some(StripExtension(firstName)), None), now)
      else convs
    case None => convs
  }

  /** The store updates of one submission, in order: the user message, the files and
      the title, the configuration snapshot. `snapshot` is the list the title test
      reads. */
  function Submit(convs: seq<Conversation>, snapshot: seq<Conversation>, convId: Id, text: string,
                  files: seq<LocalFile>, cfg: Config, msgId: Id, now: int): (r: seq<Conversation>)
    ensures |r| == |convs|
  {
    var previews := Previews(files);
    var withMessage := AddMessage(convs, convId, UserMessage(msgId, text, previews, cfg, now), now);
    var withFiles :=
      if files == [] then withMessage
      else Retitle(AddFiles(withMessage, convId, previews, now), snapshot, convId, files[0].name, now);
    UpdateConversation(withFiles, convId, Patch(None, Some(cfg)), now)
  }

  /** A submission touches only its conversation, which takes the configuration and
      the new files, keeps its outputs, and is stamped. */
  lemma SubmitChangesOnlyTarget(convs: seq<Conversation>, snapshot: seq<Conversation>, convId: Id, text: string,
                                files: seq<LocalFile>, cfg: Config, msgId: Id, now: int)
    ensures var r := Submit(convs, snapshot, convId, text, files, cfg, msgId, now);
      && |r| == |convs|
      && (forall i :: 0 <= i < |r| && convs[i].id != convId ==> r[i] == convs[i])
      && (forall i :: 0 <= i < |r| && convs[i].id == convId ==>
            && r[i].config == cfg && r[i].updatedAt == now
            && r[i].id == convs[i].id && r[i].createdAt == convs[i].createdAt
            && r[i].generatedOutputs == convs[i].generatedOutputs
            && r[i].files == convs[i].files + NewFiles(Previews(files), Names(convs[i].files))
            && var m := UserMessage(msgId, text, Previews(files), cfg, now);
               r[i].messages == if HasDuplicate(convs[i].messages, m) then convs[i].messages else convs[i].messages + [m])
  {
  }

  /** As written, the title test reads the list as it was when the view last rendered,
      before the submission created or selected anything. */
  function SubmitAsWritten(rendered: seq<Conversation>, convs: seq<Conversation>, convId: Id, text: string,
                           files: seq<LocalFile>, cfg: Config, msgId: Id, now: int): (r: seq<Conversation>)
    ensures |r| == |convs|
    ensures !HasId(rendered, convId) ==> forall i :: 0 <= i < |r| ==> r[i].title == convs[i].title
  {
    Submit(convs, rendered, convId, text, files, cfg, msgId, now)
  }

  /** The title test reads the list the submission works on. */
  function Submitted(convs: seq<Conversation>, convId: Id, text: string,
                     files: seq<LocalFile>, cfg: Config, msgId: Id, now: int): (r: seq<Conversation>)
    ensures |r| == |convs|
    ensures var k := FindConversation(convs, convId);
      k.Some? ==> r[k.value].title == if files != [] && convs[k.value].files == [] then StripExtension(files[0].name)
                                     else convs[k.value].title
  {
    Submit(convs, convs, convId, text, files, cfg, msgId, now)
  }

  /** The title a submission leaves on conversation `i`. */
  lemma SubmitTitle(convs: seq<Conversation>, snapshot: seq<Conversation>, i: nat, text: string,
                    files: seq<LocalFile>, cfg: Config, msgId: Id, now: int)
    requires i < |convs|
    requires forall j :: 0 <= j < |convs| && j != i ==> convs[j].id != convs[i].id
    ensures var id := convs[i].id;
      var retitled := files != [] && FindConversation(snapshot, id).Some?
                      && snapshot[FindConversation(snapshot, id).value].files == [];
      Submit(convs, snapshot, id, text, files, cfg, msgId, now)[i].title
        == if retitled then StripExtension(files[0].name) else convs[i].title
  {
  }

  /** As written: a conversation the submission itself creates keeps its default title. */
  lemma FreshConversationKeepsDefaultTitle(rendered: seq<Conversation>, newId: Id, text: string,
                                           files: seq<LocalFile>, cfg: Config, msgId: Id, now: int)
    requires FindEmptyConversation(rendered).None? && !HasId(rendered, newId)
    requires files != []
    ensures var created := NewConversation(Selection(rendered, None), newId, cfg, now).conversations;
      SubmitAsWritten(rendered, created, newId, text, files, cfg, msgId, now)[0].title == NewChatTitle
  {
    var created := NewConversation(Selection(rendered, None), newId, cfg, now).conversations;
    assert FindConversation(rendered, newId).None?;
    forall j | 0 <= j < |created| && j != 0 ensures created[j].id != created[0].id {
      assert created[j] == rendered[j - 1];
    }
    SubmitTitle(created, rendered, 0, text, files, cfg, msgId, now);
  }

  /** Corrected: it is titled by its first file. */
  lemma FreshConversationTitledByFile(rendered: seq<Conversation>, newId: Id, text: string,
                                      files: seq<LocalFile>, cfg: Config, msgId: Id, now: int)
    requires FindEmptyConversation(rendered).None? && !HasId(rendered, newId)
    requires files != []
    ensures var created := NewConversation(Selection(rendered, None), newId, cfg, now).conversations;
      Submitted(created, newId, text, files, cfg, msgId, now)[0].title == StripExtension(files[0].name)
  {
    var created := NewConversation(Selection(rendered, None), newId, cfg, now).conversations;
    assert FindConversation(created, newId) == Some(0);
    forall j | 0 <= j < |created| && j != 0 ensures created[j].id != created[0].id {
      assert created[j] == rendered[j - 1];
    }
    SubmitTitle(created, created, 0, text, files, cfg, msgId, now);
  }

  // ---------------------------------------------------------------- regenerate and cancel

  const RegenerateText := "Regenerate with current settings"
  const NoFilesAlert := "Please upload files first before generating."
  const NoSessionAlert := "Session ID not found. Please upload files again."

  /** The session of the current conversation: the one its first file was uploaded to. */
  function CurrentSession(convs: seq<Conversation>, current: Option<Id>): (r: Option<SessionId>)
    ensures r.Some? ==> r.value != "" && current.Some?
                        && var k := FindConversation(convs, current.value);
                           k.Some? && convs[k.value].files != [] && convs[k.value].files[0].sessionId == r
    ensures current.Some? && FindConversation(convs, current.value).Some? ==>
              var c := convs[FindConversation(convs, current.value).value];
              c.files != [] && Present(c.files[0].sessionId) ==> r == c.files[0].sessionId
  {
    if current.None? then None
    else match FindConversation(convs, current.value)
      case None => None
      case Some(k) =>
        if convs[k].files != [] && Present(convs[k].files[0].sessionId) then convs[k].files[0].sessionId
        else None
  }

  /** How a regeneration request begins. */
  datatype RegenerateStart =
    | Ignored                                    // no current conversation
    | Alerted(text: string)                      // refused with an alert
    | Started(sessionId: SessionId, convId: Id)  // resubmitted to the session

  function RegenerateCheck(convs: seq<Conversation>, current: Option<Id>): (r: RegenerateStart)
    ensures r == Ignored <==> current.None? || FindConversation(convs, current.value).None?
    ensures r.Started? <==> CurrentSession(convs, current).Some?
    ensures r.Started? ==> current == Some(r.convId) && CurrentSession(convs, current) == Some(r.sessionId)
    ensures r.Alerted? ==> r.text in {NoFilesAlert, NoSessionAlert}
    ensures r.Alerted? && r.text == NoFilesAlert ==> convs[FindConversation(convs, current.value).value].files == []
    ensures current.Some? && FindConversation(convs, current.value).Some? ==>
              var c := convs[FindConversation(convs, current.value).value];
              && (c.files == [] ==> r == Alerted(NoFilesAlert))
              && (c.files != [] && !Present(c.files[0].sessionId) ==> r == Alerted(NoSessionAlert))
  {
    if current.None? then Ignored
    else match FindConversation(convs, current.value)
      case None => Ignored
      case Some(k) =>
        if convs[k].files == [] then Alerted(NoFilesAlert)
        else if !Present(convs[k].files[0].sessionId) then Alerted(NoSessionAlert)
        else Started(convs[k].files[0].sessionId.value, current.value)
  }

  /** The user message of a regeneration, with the configuration snapshot. */
  function RegenerateMessage(id: Id, cfg: Config, now: int): (m: Message)
    ensures m.id == id && m.role == User && m.content == RegenerateText && m.files == []
    ensures m.config == Some(cfg) && !m.isError && m.pptUrl == None && m.posterUrl == None
    ensures m.timestamp == Some(now) && SelfDuplicate(m)
  {
    Message(id, User, RegenerateText, [], Some(cfg), Some(now), false, None, None, [])
  }
}
