/** The conversation store: every operation maps the list of conversations to a new
    list, touching only the conversation with the given identifier, and each append
    skips records that duplicate one already present. */
module Store {
  import opened Base
  import opened Model

  /** Two messages with the same role and content this close in time are one message. */
  const DuplicateWindowMs := 3000

  /** Applies `f` to every conversation whose identifier is `convId`. */
  function UpdateWhere(convs: seq<Conversation>, convId: Id, f: Conversation -> Conversation): (r: seq<Conversation>)
    ensures |r| == |convs|
    ensures forall i :: 0 <= i < |r| ==> r[i] == if convs[i].id == convId then f(convs[i]) else convs[i]
  {
    seq(|convs|, i requires 0 <= i < |convs| => if convs[i].id == convId then f(convs[i]) else convs[i])
  }

  /** `convs.find(c => c.id === id)`, as an index. */
  function FindConversation(convs: seq<Conversation>, id: Id): (r: Option<nat>)
    ensures r.Some? ==> r.value < |convs| && convs[r.value].id == id
                        && forall k :: 0 <= k < r.value ==> convs[k].id != id
    ensures r.None? <==> !HasId(convs, id)
  {
    if convs == [] then None
    else if convs[0].id == id then Some(0)
    else match FindConversation(convs[1..], id)
      case None =>
        assert forall k :: 1 <= k < |convs| ==> convs[k] == convs[1..][k - 1];
        None
      case Some(k) => Some(k + 1)
  }

  // ---------------------------------------------------------------- updateConversation

  /** The fields callers patch: the title (from the first file) and the config snapshot. */
  datatype Patch = Patch(title: Option<string>, config: Option<Config>)

  function UpdateConversation(convs: seq<Conversation>, convId: Id, patch: Patch, now: int): (r: seq<Conversation>)
    ensures |r| == |convs|
    ensures forall i :: 0 <= i < |r| && convs[i].id != convId ==> r[i] == convs[i]
    ensures forall i :: 0 <= i < |r| && convs[i].id == convId ==>
              && r[i].title == patch.title.GetOr(convs[i].title)
              && r[i].config == patch.config.GetOr(convs[i].config)
              && r[i].updatedAt == now
              && r[i].id == convs[i].id && r[i].createdAt == convs[i].createdAt
              && r[i].messages == convs[i].messages && r[i].files == convs[i].files
              && r[i].generatedOutputs == convs[i].generatedOutputs
  {
    UpdateWhere(convs, convId,
      (c: Conversation) => c.(title := patch.title.GetOr(c.title), config := patch.config.GetOr(c.config), updatedAt := now))
  }

  // ---------------------------------------------------------------- addMessage

  /** An assistant message that shares a truthy ppt or poster URL with an existing
      assistant message records the same result. */
  predicate SameResult(existing: Message, m: Message) {
    && m.role == Assistant && existing.role == Assistant
    && (Present(m.pptUrl) || Present(m.posterUrl))
    && (SameUrl(m.pptUrl, existing.pptUrl) || SameUrl(m.posterUrl, existing.posterUrl))
  }

  /** Same role and content, both timestamps present and under the window apart. */
  predicate SameRecentContent(existing: Message, m: Message) {
    && existing.content == m.content
    && existing.role == m.role
    && existing.timestamp.Some? && m.timestamp.Some?
    && Abs(existing.timestamp.value - m.timestamp.value) < DuplicateWindowMs
  }

  /** The duplicate test applied to each existing message. */
  predicate IsDuplicateMessage(existing: Message, m: Message) {
    SameResult(existing, m) || SameRecentContent(existing, m)
  }

  predicate HasDuplicate(msgs: seq<Message>, m: Message) {
    exists k :: 0 <= k < |msgs| && IsDuplicateMessage(msgs[k], m)
  }

  function AddMessage(convs: seq<Conversation>, convId: Id, m: Message, now: int): (r: seq<Conversation>)
    ensures |r| == |convs|
    ensures forall i :: 0 <= i < |r| && convs[i].id != convId ==> r[i] == convs[i]
    ensures forall i :: 0 <= i < |r| && convs[i].id == convId && HasDuplicate(convs[i].messages, m) ==>
              r[i] == convs[i]
    ensures forall i :: 0 <= i < |r| && convs[i].id == convId && !HasDuplicate(convs[i].messages, m) ==>
              r[i] == convs[i].(messages := convs[i].messages + [m], updatedAt := now)
  {
    UpdateWhere(convs, convId,
      (c: Conversation) => if HasDuplicate(c.messages, m) then c else c.(messages := c.messages + [m], updatedAt := now))
  }

  /** A message that would be a duplicate of itself: it carries a timestamp, or it is an
      assistant message with a truthy result URL. */
  predicate SelfDuplicate(m: Message) {
    IsDuplicateMessage(m, m)
  }

  lemma SelfDuplicateCases(m: Message)
    ensures SelfDuplicate(m) <==>
      (m.timestamp.Some? || (m.role == Assistant && (Present(m.pptUrl) || Present(m.posterUrl))))
  {
  }

  /** Delivering the same stamped message twice (two racing callbacks) adds it once. */
  lemma AddMessageTwice(convs: seq<Conversation>, convId: Id, m: Message, now: int, later: int)
    requires SelfDuplicate(m)
    ensures AddMessage(AddMessage(convs, convId, m, now), convId, m, later) == AddMessage(convs, convId, m, now)
  {
    var once := AddMessage(convs, convId, m, now);
    var twice := AddMessage(once, convId, m, later);
    forall i | 0 <= i < |convs| ensures twice[i] == once[i] {
      if convs[i].id == convId {
        var msgs := once[i].messages;
        if !HasDuplicate(convs[i].messages, m) {
          assert msgs[|msgs| - 1] == m;
        }
        assert HasDuplicate(msgs, m);
      }
    }
  }

  /** Without a timestamp and a result URL nothing stops the same message from being
      appended twice. */
  lemma AddMessageTwiceUnstamped(c: Conversation, m: Message, now: int, later: int)
    requires m.timestamp.None? && !Present(m.pptUrl) && !Present(m.posterUrl)
    requires !HasDuplicate(c.messages, m)
    ensures AddMessage(AddMessage([c], c.id, m, now), c.id, m, later)[0].messages == c.messages + [m, m]
  {
    var once := AddMessage([c], c.id, m, now)[0];
    forall k | 0 <= k < |once.messages| ensures !IsDuplicateMessage(once.messages[k], m) {
      if k < |c.messages| {
        assert once.messages[k] == c.messages[k];
      }
    }
    assert once.messages + [m] == c.messages + [m, m];
  }

  /** An assistant message whose truthy ppt URL is already recorded by an assistant
      message leaves the store as it was. */
  lemma SamePptUrlIsDropped(convs: seq<Conversation>, i: nat, k: nat, m: Message, now: int)
    requires i < |convs| && k < |convs[i].messages|
    requires m.role == Assistant && convs[i].messages[k].role == Assistant
    requires Present(m.pptUrl) && convs[i].messages[k].pptUrl == m.pptUrl
    ensures AddMessage(convs, convs[i].id, m, now)[i] == convs[i]
  {
    assert IsDuplicateMessage(convs[i].messages[k], m);
  }

  /** No two assistant messages record the same truthy ppt or poster URL. */
  predicate ResultsUnique(msgs: seq<Message>) {
    forall i, j :: 0 <= i < j < |msgs| && msgs[i].role == Assistant && msgs[j].role == Assistant ==>
      !SameUrl(msgs[i].pptUrl, msgs[j].pptUrl) && !SameUrl(msgs[i].posterUrl, msgs[j].posterUrl)
  }

  /** addMessage keeps every conversation free of repeated result messages. */
  lemma AddMessageKeepsResultsUnique(convs: seq<Conversation>, convId: Id, m: Message, now: int)
    requires forall i :: 0 <= i < |convs| ==> ResultsUnique(convs[i].messages)
    ensures forall i :: 0 <= i < |convs| ==> ResultsUnique(AddMessage(convs, convId, m, now)[i].messages)
  {
    var r := AddMessage(convs, convId, m, now);
    forall i | 0 <= i < |convs| ensures ResultsUnique(r[i].messages) {
      if convs[i].id == convId && !HasDuplicate(convs[i].messages, m) {
        var old_ := convs[i].messages;
        var msgs := r[i].messages;
        assert msgs == old_ + [m];
        forall a, b | 0 <= a < b < |msgs| && msgs[a].role == Assistant && msgs[b].role == Assistant
          ensures !SameUrl(msgs[a].pptUrl, msgs[b].pptUrl) && !SameUrl(msgs[a].posterUrl, msgs[b].posterUrl)
        {
          if b == |old_| {
            assert !IsDuplicateMessage(old_[a], m);
          } else {
            assert msgs[a] == old_[a] && msgs[b] == old_[b];
          }
        }
      }
    }
  }

  // ---------------------------------------------------------------- addFilesToConversation

  function Names(files: seq<FileRef>): (r: set<string>)
    ensures forall k :: 0 <= k < |files| ==> files[k].name in r
    ensures forall n :: n in r ==> exists k :: 0 <= k < |files| && files[k].name == n
  {
    set k | 0 <= k < |files| :: files[k].name
  }

  /** The incoming files whose name is not taken, in their order. */
  function NewFiles(files: seq<FileRef>, taken: set<string>): (r: seq<FileRef>)
    ensures |r| <= |files|
    ensures forall f :: f in r <==> f in files && f.name !in taken
  {
    if files == [] then []
    else
      var rest := NewFiles(files[1..], taken);
      assert files == [files[0]] + files[1..];
      if files[0].name in taken then rest else [files[0]] + rest
  }

  function AddFiles(convs: seq<Conversation>, convId: Id, files: seq<FileRef>, now: int): (r: seq<Conversation>)
    ensures |r| == |convs|
    ensures forall i :: 0 <= i < |r| && convs[i].id != convId ==> r[i] == convs[i]
    ensures forall i :: 0 <= i < |r| && convs[i].id == convId ==>
              r[i] == convs[i].(files := convs[i].files + NewFiles(files, Names(convs[i].files)), updatedAt := now)
  {
    UpdateWhere(convs, convId, (c: Conversation) => c.(files := c.files + NewFiles(files, Names(c.files)), updatedAt := now))
  }

  /** No two files share a name. */
  /** One incoming file is kept exactly when its name is free. */
  lemma NewFilesSingle(f: FileRef, taken: set<string>)
    ensures NewFiles([f], taken) == if f.name in taken then [] else [f]
  {
  }

  /** The filter works file by file: splitting the batch splits the result, so order and
      repeated entries of the batch are kept. */
  lemma {:induction false} NewFilesAppend(a: seq<FileRef>, b: seq<FileRef>, taken: set<string>)
    ensures NewFiles(a + b, taken) == NewFiles(a, taken) + NewFiles(b, taken)
  {
    if a != [] {
      assert (a + b)[1..] == a[1..] + b;
      NewFilesAppend(a[1..], b, taken);
    } else {
      assert a + b == b;
    }
  }

  predicate DistinctNames(files: seq<FileRef>) {
    forall i, j :: 0 <= i < j < |files| ==> files[i].name != files[j].name
  }

  lemma {:induction false} NewFilesDistinct(files: seq<FileRef>, taken: set<string>)
    requires DistinctNames(files)
    ensures DistinctNames(NewFiles(files, taken))
  {
    if files != [] {
      var rest := NewFiles(files[1..], taken);
      assert DistinctNames(files[1..]) by {
        forall i, j | 0 <= i < j < |files[1..]| ensures files[1..][i].name != files[1..][j].name {
          assert files[1..][i] == files[i + 1] && files[1..][j] == files[j + 1];
        }
      }
      NewFilesDistinct(files[1..], taken);
      if files[0].name !in taken {
        var r := [files[0]] + rest;
        forall j | 0 < j < |r| ensures r[0].name != r[j].name {
          assert r[j] in files[1..];
        }
      }
    }
  }

  /** When the existing list and the incoming batch each hold every name once, so does
      the result: names already present are the only ones filtered. */
  lemma AddFilesKeepsNamesDistinct(convs: seq<Conversation>, convId: Id, files: seq<FileRef>, now: int)
    requires forall i :: 0 <= i < |convs| ==> DistinctNames(convs[i].files)
    requires DistinctNames(files)
    ensures forall i :: 0 <= i < |convs| ==> DistinctNames(AddFiles(convs, convId, files, now)[i].files)
  {
    var r := AddFiles(convs, convId, files, now);
    forall i | 0 <= i < |convs| && convs[i].id == convId ensures DistinctNames(r[i].files) {
      var old_ := convs[i].files;
      var added := NewFiles(files, Names(old_));
      NewFilesDistinct(files, Names(old_));
      var all := r[i].files;
      assert all == old_ + added;
      forall a, b | 0 <= a < b < |all| ensures all[a].name != all[b].name {
        if b >= |old_| && a < |old_| {
          assert all[b] in added;
          assert all[a] == old_[a];
        } else if a >= |old_| {
          assert all[a] == added[a - |old_|] && all[b] == added[b - |old_|];
        }
      }
    }
  }

  /** Adding the same batch again adds nothing. */
  lemma AddFilesTwice(convs: seq<Conversation>, convId: Id, files: seq<FileRef>, now: int, later: int)
    ensures forall i :: 0 <= i < |convs| ==>
      AddFiles(AddFiles(convs, convId, files, now), convId, files, later)[i].files
        == AddFiles(convs, convId, files, now)[i].files
  {
    var once := AddFiles(convs, convId, files, now);
    forall i | 0 <= i < |convs| && convs[i].id == convId
      ensures NewFiles(files, Names(once[i].files)) == []
    {
      var added0 := NewFiles(files, Names(convs[i].files));
      forall k | 0 <= k < |files| ensures files[k].name in Names(once[i].files) {
        if files[k].name in Names(convs[i].files) {
          var j :| 0 <= j < |convs[i].files| && convs[i].files[j].name == files[k].name;
          assert once[i].files[j] == convs[i].files[j];
        } else {
          assert files[k] in added0;
          var j :| 0 <= j < |added0| && added0[j] == files[k];
          assert once[i].files[|convs[i].files| + j] == files[k];
        }
      }
      NothingNew(files, Names(once[i].files));
    }
  }

  lemma NothingNew(files: seq<FileRef>, taken: set<string>)
    requires forall k :: 0 <= k < |files| ==> files[k].name in taken
    ensures NewFiles(files, taken) == []
  {
  }

  /** Two files of the same name in one batch are both kept. */
  lemma AddFilesKeepsBatchDuplicates(c: Conversation, f: FileRef, now: int)
    requires c.files == []
    ensures AddFiles([c], c.id, [f, f], now)[0].files == [f, f]
    ensures !DistinctNames(AddFiles([c], c.id, [f, f], now)[0].files)
  {
    assert NewFiles([f, f], {}) == [f, f] by {
      assert [f, f][1..] == [f];
      assert NewFiles([f], {}) == [f] by {
        assert [f][1..] == [];
      }
    }
  }

  // ---------------------------------------------------------------- generated outputs

  /** An output whose truthy ppt or poster URL is already recorded records the same artifact. */
  predicate SameArtifact(existing: GeneratedOutput, o: GeneratedOutput) {
    SameUrl(existing.pptUrl, o.pptUrl) || SameUrl(existing.posterUrl, o.posterUrl)
  }

  predicate HasArtifact(outputs: seq<GeneratedOutput>, o: GeneratedOutput) {
    exists k :: 0 <= k < |outputs| && SameArtifact(outputs[k], o)
  }

  function AppendOutput(convs: seq<Conversation>, convId: Id, o: GeneratedOutput, now: int): (r: seq<Conversation>)
    ensures |r| == |convs|
    ensures forall i :: 0 <= i < |r| && convs[i].id != convId ==> r[i] == convs[i]
    ensures forall i :: 0 <= i < |r| && convs[i].id == convId && HasArtifact(convs[i].generatedOutputs, o) ==>
              r[i] == convs[i]
    ensures forall i :: 0 <= i < |r| && convs[i].id == convId && !HasArtifact(convs[i].generatedOutputs, o) ==>
              r[i] == convs[i].(generatedOutputs := convs[i].generatedOutputs + [o], updatedAt := now)
  {
    UpdateWhere(convs, convId,
      (c: Conversation) => if HasArtifact(c.generatedOutputs, o) then c
           else c.(generatedOutputs := c.generatedOutputs + [o], updatedAt := now))
  }

  /** No two recorded outputs share a truthy artifact URL. */
  predicate ArtifactsUnique(outputs: seq<GeneratedOutput>) {
    forall i, j :: 0 <= i < j < |outputs| ==> !SameArtifact(outputs[i], outputs[j])
  }

  lemma AppendOutputKeepsArtifactsUnique(convs: seq<Conversation>, convId: Id, o: GeneratedOutput, now: int)
    requires forall i :: 0 <= i < |convs| ==> ArtifactsUnique(convs[i].generatedOutputs)
    ensures forall i :: 0 <= i < |convs| ==> ArtifactsUnique(AppendOutput(convs, convId, o, now)[i].generatedOutputs)
  {
    var r := AppendOutput(convs, convId, o, now);
    forall i | 0 <= i < |convs| ensures ArtifactsUnique(r[i].generatedOutputs) {
      if convs[i].id == convId && !HasArtifact(convs[i].generatedOutputs, o) {
        var old_ := convs[i].generatedOutputs;
        var outs := r[i].generatedOutputs;
        assert outs == old_ + [o];
        forall a, b | 0 <= a < b < |outs| ensures !SameArtifact(outs[a], outs[b]) {
          if b == |old_| {
            assert outs[a] == old_[a];
          } else {
            assert outs[a] == old_[a] && outs[b] == old_[b];
          }
        }
      }
    }
  }

  /** Two result fetches of one session that both reach the store record one output. */
  lemma AppendOutputTwice(convs: seq<Conversation>, convId: Id, o: GeneratedOutput, o2: GeneratedOutput, now: int, later: int)
    requires Present(o.pptUrl) || Present(o.posterUrl)
    requires o2.pptUrl == o.pptUrl && o2.posterUrl == o.posterUrl
    ensures AppendOutput(AppendOutput(convs, convId, o, now), convId, o2, later) == AppendOutput(convs, convId, o, now)
  {
    var once := AppendOutput(convs, convId, o, now);
    var twice := AppendOutput(once, convId, o2, later);
    forall i | 0 <= i < |convs| ensures twice[i] == once[i] {
      if convs[i].id == convId {
        var outs := once[i].generatedOutputs;
        if !HasArtifact(convs[i].generatedOutputs, o) {
          assert outs[|outs| - 1] == o;
          assert SameArtifact(outs[|outs| - 1], o2);
        } else {
          var k :| 0 <= k < |outs| && SameArtifact(outs[k], o);
          assert SameArtifact(outs[k], o2);
        }
      }
    }
  }

  /** Outputs without a truthy URL are never treated as duplicates. */
  lemma UrllessOutputAlwaysAppended(c: Conversation, o: GeneratedOutput, now: int)
    requires !Present(o.pptUrl) && !Present(o.posterUrl)
    ensures AppendOutput([c], c.id, o, now)[0].generatedOutputs == c.generatedOutputs + [o]
  {
  }

  // ---------------------------------------------------------------- selection

  /** The conversation list with the current selection. */
  datatype Selection = Selection(conversations: seq<Conversation>, current: Option<Id>)

  /** The selection is empty or names a conversation of the list. */
  predicate SelectionValid(s: Selection) {
    s.current.None? || HasId(s.conversations, s.current.value)
  }

  /** The index of the first empty conversation, if any. */
  function FindEmptyConversation(convs: seq<Conversation>): (r: Option<nat>)
    ensures r.Some? ==> r.value < |convs| && IsEmpty(convs[r.value])
                        && forall k :: 0 <= k < r.value ==> !IsEmpty(convs[k])
    ensures r.None? ==> forall k :: 0 <= k < |convs| ==> !IsEmpty(convs[k])
  {
    if convs == [] then None
    else if IsEmpty(convs[0]) then Some(0)
    else match FindEmptyConversation(convs[1..])
      case None => None
      case Some(k) => Some(k + 1)
  }

  const NewChatTitle := "New Chat"

  function BlankConversation(id: Id, config: Config, now: int): (c: Conversation)
    ensures IsEmpty(c) && c.id == id && c.config == config
  {
    Conversation(id, NewChatTitle, [], [], [], config, now, now)
  }

  /** handleNewConversation: select the first empty conversation, or put a new one in
      front and select it. */
  function NewConversation(s: Selection, newId: Id, config: Config, now: int): (r: Selection)
    ensures FindEmptyConversation(s.conversations).Some? ==>
              r.conversations == s.conversations
              && r.current == Some(s.conversations[FindEmptyConversation(s.conversations).value].id)
    ensures FindEmptyConversation(s.conversations).None? ==>
              r.conversations == [BlankConversation(newId, config, now)] + s.conversations
              && r.current == Some(newId)
  {
    match FindEmptyConversation(s.conversations)
    case Some(k) => s.(current := Some(s.conversations[k].id))
    case None => Selection([BlankConversation(newId, config, now)] + s.conversations, Some(newId))
  }

  /** After a new-conversation request the selection is an empty conversation, and at
      most one conversation was added. */
  lemma NewConversationSelectsEmpty(s: Selection, newId: Id, config: Config, now: int)
    ensures var r := NewConversation(s, newId, config, now);
      && r.current.Some?
      && (exists k :: 0 <= k < |r.conversations| && r.conversations[k].id == r.current.value
                      && IsEmpty(r.conversations[k]))
      && s.conversations <= r.conversations[|r.conversations| - |s.conversations|..]
      && |r.conversations| <= |s.conversations| + 1
  {
    var r := NewConversation(s, newId, config, now);
    match FindEmptyConversation(s.conversations)
    case Some(k) =>
      assert r.conversations[k].id == r.current.value;
    case None =>
      assert r.conversations[0].id == r.current.value;
  }

  /** A second new-conversation request reuses the one the first produced. */
  lemma NewConversationTwice(s: Selection, id1: Id, id2: Id, config: Config, now: int, later: int)
    ensures var r1 := NewConversation(s, id1, config, now);
      NewConversation(r1, id2, config, later) == r1
  {
    var r1 := NewConversation(s, id1, config, now);
    match FindEmptyConversation(s.conversations)
    case Some(k) =>
    case None =>
      assert IsEmpty(r1.conversations[0]);
  }

  /** The conversations whose identifier is not `id`, in their order. */
  function Without(convs: seq<Conversation>, id: Id): (r: seq<Conversation>)
    ensures |r| <= |convs|
    ensures forall c :: c in r <==> c in convs && c.id != id
    ensures r != [] ==> exists k :: 0 <= k < |convs| && r[0] == convs[k]
                                    && forall j :: 0 <= j < k ==> convs[j].id == id
  {
    if convs == [] then []
    else
      var rest := Without(convs[1..], id);
      assert convs == [convs[0]] + convs[1..];
      if convs[0].id == id then
        assert rest != [] ==> exists k :: 0 <= k < |convs| && rest[0] == convs[k]
                                           && forall j :: 0 <= j < k ==> convs[j].id == id by {
          if rest != [] {
            var k :| 0 <= k < |convs[1..]| && rest[0] == convs[1..][k]
                     && forall j :: 0 <= j < k ==> convs[1..][j].id == id;
            assert forall j :: 0 <= j < k + 1 ==> convs[j].id == id by {
              forall j | 0 <= j < k + 1 ensures convs[j].id == id {
                if j > 0 { assert convs[j] == convs[1..][j - 1]; }
              }
            }
          }
        }
        rest
      else [convs[0]] + rest
  }

  /** One conversation is kept exactly when its identifier is another. */
  lemma WithoutSingle(c: Conversation, id: Id)
    ensures Without([c], id) == if c.id == id then [] else [c]
  {
  }

  /** Removal works conversation by conversation, so the remaining ones keep their order. */
  lemma {:induction false} WithoutAppend(a: seq<Conversation>, b: seq<Conversation>, id: Id)
    ensures Without(a + b, id) == Without(a, id) + Without(b, id)
  {
    if a != [] {
      assert (a + b)[1..] == a[1..] + b;
      WithoutAppend(a[1..], b, id);
    } else {
      assert a + b == b;
    }
  }

  datatype Deletion = Deletion(selection: Selection, clearStorage: bool)

  /** handleDeleteConversation: drop every conversation with that identifier; a deleted
      current selection moves to the first remaining conversation; an emptied store
      clears the selection and the persisted copy. */
  function DeleteConversation(s: Selection, convId: Id): (r: Deletion)
    ensures r.selection.conversations == Without(s.conversations, convId)
    ensures !HasId(r.selection.conversations, convId)
    ensures r.clearStorage <==> r.selection.conversations == []
    ensures s.current == Some(convId) && r.selection.conversations != [] ==>
              r.selection.current == Some(r.selection.conversations[0].id)
    ensures r.selection.conversations == [] ==> r.selection.current == None
    ensures s.current != Some(convId) && r.selection.conversations != [] ==>
              r.selection.current == s.current
  {
    var filtered := Without(s.conversations, convId);
    assert forall k :: 0 <= k < |filtered| ==> filtered[k] in filtered;
    var current :=
      if s.current == Some(convId) && |filtered| > 0 then Some(filtered[0].id)
      else if |filtered| == 0 then None
      else s.current;
    Deletion(Selection(filtered, current), |filtered| == 0)
  }

  /** Deleting never leaves the selection pointing at a missing conversation. */
  lemma DeleteKeepsSelectionValid(s: Selection, convId: Id)
    requires SelectionValid(s)
    ensures SelectionValid(DeleteConversation(s, convId).selection)
  {
    var r := DeleteConversation(s, convId).selection;
    if r.current.Some? && r.conversations != [] {
      if s.current == Some(convId) {
        assert r.conversations[0].id == r.current.value;
      } else {
        var k :| 0 <= k < |s.conversations| && s.conversations[k].id == s.current.value;
        assert s.conversations[k] in r.conversations;
        var j :| 0 <= j < |r.conversations| && r.conversations[j] == s.conversations[k];
      }
    }
  }

  // ---------------------------------------------------------------- persistence

  /** The local preview handle does not survive a reload, so it is never persisted. */
  function ForgetHandle(f: FileRef): (r: FileRef)
    ensures r.blobUrl == None
    ensures r.name == f.name && r.size == f.size && r.fileType == f.fileType
    ensures r.url == f.url && r.sessionId == f.sessionId
  {
    f.(blobUrl := None)
  }

  function ForgetHandles(files: seq<FileRef>): (r: seq<FileRef>)
    ensures |r| == |files|
    ensures forall k :: 0 <= k < |r| ==> r[k] == ForgetHandle(files[k])
  {
    seq(|files|, k requires 0 <= k < |files| => ForgetHandle(files[k]))
  }

  /** The conversation with every preview handle dropped, in its files and in its
      messages' files, and all else kept. */
  function CleanConversation(c: Conversation): (r: Conversation)
    ensures HandleFree(r)
    ensures r.(files := [], messages := []) == c.(files := [], messages := [])
    ensures |r.files| == |c.files| && forall k :: 0 <= k < |r.files| ==> r.files[k] == ForgetHandle(c.files[k])
    ensures |r.messages| == |c.messages|
    ensures forall k :: 0 <= k < |r.messages| ==>
              && r.messages[k].(files := []) == c.messages[k].(files := [])
              && r.messages[k].files == ForgetHandles(c.messages[k].files)
  {
    c.(files := ForgetHandles(c.files),
       messages := seq(|c.messages|, k requires 0 <= k < |c.messages| =>
                       c.messages[k].(files := ForgetHandles(c.messages[k].files))))
  }

  predicate NoHandles(files: seq<FileRef>) {
    forall k :: 0 <= k < |files| ==> files[k].blobUrl == None
  }

  /** No file of the conversation or of its messages holds a preview handle. */
  predicate HandleFree(c: Conversation) {
    NoHandles(c.files) && forall k :: 0 <= k < |c.messages| ==> NoHandles(c.messages[k].files)
  }

  /** The copy written to durable storage: nothing is written while the list is empty;
      otherwise every conversation with its preview handles stripped and all else kept. */
  function PersistedSnapshot(convs: seq<Conversation>): (r: Option<seq<Conversation>>)
    ensures r.None? <==> convs == []
    ensures r.Some? ==> |r.value| == |convs| && forall i :: 0 <= i < |convs| ==>
      && HandleFree(r.value[i])
      && r.value[i].(files := [], messages := []) == convs[i].(files := [], messages := [])
      && r.value[i].files == ForgetHandles(convs[i].files)
      && |r.value[i].messages| == |convs[i].messages|
      && forall k :: 0 <= k < |convs[i].messages| ==>
           r.value[i].messages[k] == convs[i].messages[k].(files := ForgetHandles(convs[i].messages[k].files))
  {
    if convs == [] then None
    else Some(seq(|convs|, i requires 0 <= i < |convs| => CleanConversation(convs[i])))
  }

  /** A conversation already free of handles is persisted as it is. */
  lemma CleanConversationFixesHandleFree(c: Conversation)
    requires HandleFree(c)
    ensures CleanConversation(c) == c
  {
    var d := CleanConversation(c);
    assert d.files == c.files;
    forall k | 0 <= k < |c.messages| ensures d.messages[k] == c.messages[k] {
      assert ForgetHandles(c.messages[k].files) == c.messages[k].files;
    }
    assert d.messages == c.messages;
  }

  /** Persisting a store that was just read back from storage writes the same thing. */
  lemma PersistedSnapshotIdempotent(convs: seq<Conversation>)
    requires convs != []
    ensures PersistedSnapshot(PersistedSnapshot(convs).value) == PersistedSnapshot(convs)
  {
    var once := PersistedSnapshot(convs).value;
    forall i | 0 <= i < |once| ensures CleanConversation(once[i]) == once[i] {
      CleanConversationFixesHandleFree(once[i]);
    }
    assert PersistedSnapshot(once).value == once;
  }

  // ---------------------------------------------------------------- uploaded-file URLs

  /** An entry of the submission response's `uploaded_files`. */
  datatype UploadedFile = UploadedFile(name: string, url: Option<string>)

  /** `uploaded.find(uf => uf.name === name)`. */
  function FindUploaded(uploaded: seq<UploadedFile>, name: string): (r: Option<nat>)
    ensures r.Some? ==> r.value < |uploaded| && uploaded[r.value].name == name
                        && forall k :: 0 <= k < r.value ==> uploaded[k].name != name
    ensures r.None? ==> forall k :: 0 <= k < |uploaded| ==> uploaded[k].name != name
  {
    if uploaded == [] then None
    else if uploaded[0].name == name then Some(0)
    else match FindUploaded(uploaded[1..], name)
      case None => None
      case Some(k) => Some(k + 1)
  }

  /** A conversation file that was uploaded gets its URL and session, and loses its
      preview handle. */
  function PopulateFile(f: FileRef, uploaded: seq<UploadedFile>, sessionId: Option<string>): FileRef {
    match FindUploaded(uploaded, f.name)
    case None => f
    case Some(k) => f.(url := uploaded[k].url, sessionId := sessionId, blobUrl := None)
  }

  /** A message file that was uploaded gets its URL and loses its preview handle. */
  function PopulateMessageFile(f: FileRef, uploaded: seq<UploadedFile>): FileRef {
    match FindUploaded(uploaded, f.name)
    case None => f
    case Some(k) => f.(url := uploaded[k].url, blobUrl := None)
  }

  function PopulateMessage(m: Message, uploaded: seq<UploadedFile>): Message {
    m.(files := seq(|m.files|, k requires 0 <= k < |m.files| => PopulateMessageFile(m.files[k], uploaded)))
  }

  /** Writes the backend's URLs into the files of conversation `convId` and of its
      messages, matching by name. */
  function PopulateUploaded(convs: seq<Conversation>, convId: Id, uploaded: seq<UploadedFile>,
                            sessionId: Option<string>): (r: seq<Conversation>)
    ensures |r| == |convs|
    ensures forall i :: 0 <= i < |r| && (convs[i].id != convId || uploaded == []) ==> r[i] == convs[i]
    ensures forall i :: 0 <= i < |r| && convs[i].id == convId ==>
      && r[i].(files := [], messages := []) == convs[i].(files := [], messages := [])
      && |r[i].files| == |convs[i].files| && |r[i].messages| == |convs[i].messages|
      && (forall k :: 0 <= k < |r[i].files| ==>
            var f := convs[i].files[k];
            match FindUploaded(uploaded, f.name)
            case None => r[i].files[k] == f
            case Some(u) => r[i].files[k] == f.(url := uploaded[u].url, sessionId := sessionId, blobUrl := None))
      && (forall k :: 0 <= k < |r[i].messages| ==>
            var m := convs[i].messages[k];
            && r[i].messages[k].(files := []) == m.(files := [])
            && |r[i].messages[k].files| == |m.files|
            && forall j :: 0 <= j < |m.files| ==>
                 match FindUploaded(uploaded, m.files[j].name)
                 case None => r[i].messages[k].files[j] == m.files[j]
                 case Some(u) => r[i].messages[k].files[j] == m.files[j].(url := uploaded[u].url, blobUrl := None))
  {
    if uploaded == [] then convs
    else UpdateWhere(convs, convId, (c: Conversation) => c.(
      files := seq(|c.files|, k requires 0 <= k < |c.files| => PopulateFile(c.files[k], uploaded, sessionId)),
      messages := seq(|c.messages|, k requires 0 <= k < |c.messages| => PopulateMessage(c.messages[k], uploaded))))
  }

  /** Applying the same response twice changes nothing more. */
  lemma PopulateUploadedIdempotent(convs: seq<Conversation>, convId: Id, uploaded: seq<UploadedFile>,
                                   sessionId: Option<string>)
    ensures var once := PopulateUploaded(convs, convId, uploaded, sessionId);
      PopulateUploaded(once, convId, uploaded, sessionId) == once
  {
    var once := PopulateUploaded(convs, convId, uploaded, sessionId);
    var twice := PopulateUploaded(once, convId, uploaded, sessionId);
    forall i | 0 <= i < |convs| ensures twice[i] == once[i] {
      if convs[i].id == convId && uploaded != [] {
        var c := once[i];
        forall k | 0 <= k < |c.files| ensures PopulateFile(c.files[k], uploaded, sessionId) == c.files[k] {
          assert c.files[k].name == convs[i].files[k].name;
        }
        forall k | 0 <= k < |c.messages| ensures PopulateMessage(c.messages[k], uploaded) == c.messages[k] {
          var m := c.messages[k];
          forall j | 0 <= j < |m.files| ensures PopulateMessageFile(m.files[j], uploaded) == m.files[j] {
            assert m.files[j].name == convs[i].messages[k].files[j].name;
          }
          assert PopulateMessage(m, uploaded).files == m.files;
        }
        assert twice[i].files == c.files;
        assert twice[i].messages == c.messages;
      }
    }
  }

  /** After population every file of the conversation named in the response has the
      URL of the first entry of that name; message files never get a session. */
  lemma PopulateUploadedSetsUrls(convs: seq<Conversation>, i: nat, uploaded: seq<UploadedFile>,
                                 sessionId: Option<string>, k: nat, u: nat)
    requires i < |convs| && k < |convs[i].files| && u < |uploaded|
    requires uploaded[u].name == convs[i].files[k].name
    ensures var r := PopulateUploaded(convs, convs[i].id, uploaded, sessionId)[i].files[k];
      && r.name == convs[i].files[k].name
      && r.sessionId == sessionId && r.blobUrl == None
      && exists u' :: 0 <= u' <= u && uploaded[u'].name == r.name && r.url == uploaded[u'].url
  {
    var f := convs[i].files[k];
    match FindUploaded(uploaded, f.name)
    case None =>
      assert false;
    case Some(u') =>
  }
}
