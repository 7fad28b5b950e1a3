/** Chat messages and their attachments: what sending, editing, deleting a file and deleting a message keep true. */
module Messages {
  import opened UploadPool
  import opened Wrappers

  type ChatId = nat
  type UserId = nat
  type MessageId = nat

  /** A file is known by its storage key. */
  type FileId = Url

  const CONCURRENCY_LIMIT := 3

  datatype MessageType = TEXT | FILE | MIXED | SYSTEM

  datatype Message = Message(chatId: ChatId, senderId: UserId, content: Option<string>, messageType: MessageType,
                             isDeleted: bool)

  /** Message rows, file rows with the message each belongs to, and what the file storage holds for chats. */
  datatype State = State(messages: map<MessageId, Message>, files: map<FileId, MessageId>, storage: set<FileId>)

  // ---- Text ----

  /** What `trim` strips. */
  predicate IsSpace(c: char) {
    || c in {' ', '\t', '\n', '\r', '\U{0B}', '\U{0C}', '\U{A0}', '\U{1680}', '\U{2028}', '\U{2029}', '\U{202F}',
             '\U{205F}', '\U{3000}', '\U{FEFF}'}
    || '\U{2000}' <= c <= '\U{200A}'
  }

  function TrimStart(s: string): string {
    if s != [] && IsSpace(s[0]) then TrimStart(s[1..]) else s
  }

  function TrimEnd(s: string): string {
    if s != [] && IsSpace(s[|s| - 1]) then TrimEnd(s[..|s| - 1]) else s
  }

  function Trim(s: string): string { TrimEnd(TrimStart(s)) }

  lemma {:induction false} TrimmedStart(s: string)
    ensures TrimStart(s) == [] || !IsSpace(TrimStart(s)[0])
  {
    if s != [] && IsSpace(s[0]) {
      TrimmedStart(s[1..]);
    }
  }

  lemma {:induction false} TrimmedEnd(s: string)
    ensures TrimEnd(s) == [] || !IsSpace(TrimEnd(s)[|TrimEnd(s)| - 1])
    ensures TrimEnd(s) <= s
  {
    if s != [] && IsSpace(s[|s| - 1]) {
      TrimmedEnd(s[..|s| - 1]);
    }
  }

  /** Trimming twice is trimming once, so that text stored trimmed still counts as text when it is read back. */
  lemma TrimTwice(s: string)
    ensures Trim(Trim(s)) == Trim(s)
  {
    TrimmedStart(s);
    TrimmedEnd(TrimStart(s));
  }

  ghost predicate AllSpaces(s: string) { forall i :: 0 <= i < |s| ==> IsSpace(s[i]) }

  /** What is left of a text without the blanks around it. */
  ghost predicate IsTrimmed(t: string, s: string) {
    && (t != "" ==> !IsSpace(t[0]) && !IsSpace(t[|t| - 1]))
    && exists i, j :: 0 <= i <= j <= |s| && t == s[i..j] && AllSpaces(s[..i]) && AllSpaces(s[j..])
  }

  lemma {:induction false} StartTrimmed(s: string) returns (i: nat)
    ensures i <= |s| && TrimStart(s) == s[i..] && AllSpaces(s[..i])
  {
    i := 0;
    if s != [] && IsSpace(s[0]) {
      var k := StartTrimmed(s[1..]);
      i := k + 1;
      assert s[1..][k..] == s[i..] && s[..i] == [s[0]] + s[1..][..k];
    }
  }

  lemma {:induction false} EndTrimmed(s: string) returns (j: nat)
    ensures j <= |s| && TrimEnd(s) == s[..j] && AllSpaces(s[j..])
  {
    j := |s|;
    if s != [] && IsSpace(s[|s| - 1]) {
      var rest := s[..|s| - 1];
      j := EndTrimmed(rest);
      assert rest[..j] == s[..j] && s[j..] == rest[j..] + [s[|s| - 1]];
    }
  }

  lemma TrimIsTrimmed(s: string)
    ensures IsTrimmed(Trim(s), s)
  {
    var i := StartTrimmed(s);
    var j := EndTrimmed(s[i..]);
    TrimmedStart(s);
    TrimmedEnd(TrimStart(s));
    assert s[i..][..j] == s[i..i + j] && s[i..][j..] == s[i + j..];
  }

  function TextOf(content: Option<string>): string { if content.Some? then Trim(content.value) else "" }

  // ---- Types ----

  function ResolveMessageType(hasText: bool, hasFiles: bool, forcedType: Option<MessageType>): MessageType {
    if forcedType == Some(SYSTEM) then SYSTEM
    else if hasText && hasFiles then MIXED
    else if hasFiles then FILE
    else TEXT
  }

  function Attachments(s: State, id: MessageId): set<FileId> {
    set f | f in s.files && s.files[f] == id
  }

  /** A live message has text or an attachment, and unless it is a system message its type says which. */
  predicate WellTyped(m: Message, attachments: set<FileId>) {
    var hasText, hasFiles := TextOf(m.content) != "", attachments != {};
    && (hasText || hasFiles)
    && (m.messageType != SYSTEM ==> m.messageType == ResolveMessageType(hasText, hasFiles, None))
  }

  ghost predicate MessageOk(s: State, id: MessageId)
    requires id in s.messages
  {
    if s.messages[id].isDeleted then Attachments(s, id) == {} else WellTyped(s.messages[id], Attachments(s, id))
  }

  /** Every message is as it should be, every file row has a message, and the storage holds those files and no
      others. */
  ghost predicate Inv(s: State) {
    && (forall id :: id in s.messages ==> MessageOk(s, id))
    && (forall f :: f in s.files ==> s.files[f] in s.messages)
    && s.files.Keys == s.storage
  }

  // ---- The repository's calls ----

  function CreateMessage(s: State, id: MessageId, m: Message, keys: set<FileId>): State {
    State(s.messages[id := m], s.files + (map f | f in keys :: id), s.storage)
  }

  function UpdateContent(s: State, id: MessageId, text: string): State
    requires id in s.messages
  {
    s.(messages := s.messages[id := s.messages[id].(content := Some(text))])
  }

  function UpdateType(s: State, id: MessageId, messageType: MessageType): State
    requires id in s.messages
  {
    s.(messages := s.messages[id := s.messages[id].(messageType := messageType)])
  }

  function SoftDelete(s: State, id: MessageId): State
    requires id in s.messages
  {
    s.(messages := s.messages[id := s.messages[id].(isDeleted := true)])
  }

  function RemoveFiles(s: State, gone: set<FileId>): State {
    s.(files := s.files - gone, storage := s.storage - gone)
  }

  // ---- Operations ----

  datatype Op =
    | Send(id: MessageId, chatId: ChatId, senderId: UserId, content: Option<string>, forcedType: Option<MessageType>,
           keys: set<FileId>)
    | Edit(id: MessageId, newContent: string)
    | Delete(id: MessageId)
    | DeleteFile(file: FileId)

  /** An operation that is not refused, with nothing else going on. */
  predicate Accepted(s: State, op: Op) {
    match op
    case Send(id, _, _, content, _, keys) =>
      id !in s.messages && (TextOf(content) != "" || keys != {}) && keys !! s.storage && keys !! s.files.Keys
    case Edit(id, newContent) => id in s.messages && !s.messages[id].isDeleted && Trim(newContent) != ""
    case Delete(id) => id in s.messages && !s.messages[id].isDeleted
    case DeleteFile(file) => file in s.files && s.files[file] in s.messages && !s.messages[s.files[file]].isDeleted
  }

  function SentMessage(op: Op): Message
    requires op.Send?
  {
    var text := TextOf(op.content);
    Message(op.chatId, op.senderId, if text != "" then Some(text) else None,
            ResolveMessageType(text != "", op.keys != {}, op.forcedType), false)
  }

  function Edited(s: State, id: MessageId, newContent: string): State
    requires id in s.messages
  {
    var t := UpdateContent(s, id, Trim(newContent));
    if Attachments(t, id) != {} && t.messages[id].messageType == FILE then UpdateType(t, id, MIXED) else t
  }

  /** The message after one of its files has gone. */
  function Reevaluated(s: State, id: MessageId): State
    requires id in s.messages
  {
    var hasText, hasFiles := TextOf(s.messages[id].content) != "", Attachments(s, id) != {};
    if !hasText && !hasFiles then SoftDelete(s, id)
    else
      var nextType := ResolveMessageType(hasText, hasFiles, None);
      if s.messages[id].messageType != nextType then UpdateType(s, id, nextType) else s
  }

  function Step(s: State, op: Op): State {
    if !Accepted(s, op) then s
    else
      match op
      case Send(id, _, _, _, _, keys) =>
        CreateMessage(s.(storage := s.storage + keys), id, SentMessage(op), keys)
      case Edit(id, newContent) => Edited(s, id, newContent)
      case Delete(id) => SoftDelete(RemoveFiles(s, Attachments(s, id)), id)
      case DeleteFile(file) => Reevaluated(RemoveFiles(s, {file}), s.files[file])
  }

  function Run(s: State, ops: seq<Op>): State {
    if ops == [] then s else Step(Run(s, ops[..|ops| - 1]), ops[|ops| - 1])
  }

  const Initial := State(map[], map[], {})

  // ---- What they keep ----

  ghost predicate IsStep(s: State, op: Op, t: State) { Accepted(s, op) && t == Step(s, op) }

  lemma SendStep(s: State, op: Op)
    requires op.Send? && Accepted(s, op)
    ensures Step(s, op) == State(s.messages[op.id := SentMessage(op)], s.files + (map f | f in op.keys :: op.id),
                                 s.storage + op.keys)
  {
  }

  lemma SendInv(s: State, op: Op)
    requires Inv(s) && op.Send? && Accepted(s, op)
    ensures Inv(Step(s, op))
  {
    var t := Step(s, op);
    var m := SentMessage(op);
    assert Attachments(t, op.id) == op.keys;
    if op.content.Some? {
      TrimTwice(op.content.value);
    }
    assert TextOf(m.content) == TextOf(op.content);
    forall other | other in t.messages && other != op.id ensures MessageOk(t, other) {
    }
  }

  lemma EditInv(s: State, op: Op)
    requires Inv(s) && op.Edit? && Accepted(s, op)
    ensures Inv(Step(s, op))
  {
    var t := Step(s, op);
    TrimTwice(op.newContent);
    assert Attachments(t, op.id) == Attachments(s, op.id);
    assert MessageOk(s, op.id);
    forall other | other in t.messages && other != op.id ensures MessageOk(t, other) {
    }
  }

  lemma DeleteFileInv(s: State, op: Op)
    requires Inv(s) && op.DeleteFile? && Accepted(s, op)
    ensures Inv(Step(s, op))
  {
    var t, id := Step(s, op), s.files[op.file];
    assert Attachments(t, id) == Attachments(RemoveFiles(s, {op.file}), id);
    assert MessageOk(s, id);
    forall other | other in t.messages && other != id ensures MessageOk(t, other) {
    }
  }

  lemma StepInv(s: State, op: Op)
    requires Inv(s)
    ensures Inv(Step(s, op))
  {
    if Accepted(s, op) {
      match op {
        case Send(_, _, _, _, _, _) => SendInv(s, op);
        case Edit(_, _) => EditInv(s, op);
        case Delete(_) =>
        case DeleteFile(_) => DeleteFileInv(s, op);
      }
    }
  }

  lemma {:induction false} RunInv(ops: seq<Op>)
    ensures Inv(Run(Initial, ops))
  {
    if ops != [] {
      RunInv(ops[..|ops| - 1]);
      StepInv(Run(Initial, ops[..|ops| - 1]), ops[|ops| - 1]);
    }
  }

  /** In every run of operations, one at a time, a live message has text or an attachment, and unless it is a system
      message its type is the one its text and attachments call for. */
  lemma LiveMessagesWellTyped(ops: seq<Op>, id: MessageId)
    requires id in Run(Initial, ops).messages && !Run(Initial, ops).messages[id].isDeleted
    ensures var s := Run(Initial, ops);
            var hasText, hasFiles := TextOf(s.messages[id].content) != "", Attachments(s, id) != {};
            && (hasText || hasFiles)
            && (match s.messages[id].messageType
                case SYSTEM => true
                case MIXED => hasText && hasFiles
                case FILE => hasFiles && !hasText
                case TEXT => hasText && !hasFiles)
  {
    RunInv(ops);
    assert MessageOk(Run(Initial, ops), id);
  }

  /** No stored file is without a row, no row without its file, and a deleted message has neither. */
  lemma NoOrphans(ops: seq<Op>, id: MessageId)
    requires id in Run(Initial, ops).messages && Run(Initial, ops).messages[id].isDeleted
    ensures var s := Run(Initial, ops);
            s.storage == s.files.Keys && Attachments(s, id) == {}
  {
    RunInv(ops);
    assert MessageOk(Run(Initial, ops), id);
  }

  /** Taking a file from a system message that keeps text or another file turns it into an ordinary message. */
  lemma SystemTypeLost(s: State, file: FileId)
    requires Inv(s) && Accepted(s, DeleteFile(file)) && s.messages[s.files[file]].messageType == SYSTEM
    ensures var t := Step(s, DeleteFile(file));
            var m := t.messages[s.files[file]];
            m.messageType == SYSTEM <==> TextOf(m.content) == "" && Attachments(s, s.files[file]) == {file}
  {
    var id := s.files[file];
    var mid := RemoveFiles(s, {file});
    assert Attachments(mid, id) == Attachments(s, id) - {file};
    assert file in Attachments(s, id);
  }

  /** Interleaved, the operations do not keep it. An edit writes its text to a message that only has a file and sees
      type FILE; the file is deleted and the message re-typed TEXT; then the edit writes MIXED. */
  lemma EditRacesDeleteFile(s: State, id: MessageId, file: FileId, newContent: string)
    requires Inv(s) && id in s.messages && !s.messages[id].isDeleted && s.messages[id].messageType == FILE
    requires Attachments(s, id) == {file} && Trim(newContent) != ""
    ensures var written := UpdateContent(s, id, Trim(newContent));
            && Attachments(written, id) != {} && written.messages[id].messageType == FILE
            && var retyped := Reevaluated(RemoveFiles(written, {file}), id);
               && retyped.messages[id].messageType == TEXT
               && !WellTyped(UpdateType(retyped, id, MIXED).messages[id], Attachments(UpdateType(retyped, id, MIXED), id))
  {
    var written := UpdateContent(s, id, Trim(newContent));
    TrimTwice(newContent);
    assert Attachments(written, id) == {file};
    assert Attachments(RemoveFiles(written, {file}), id) == {};
    var retyped := Reevaluated(RemoveFiles(written, {file}), id);
    assert Attachments(UpdateType(retyped, id, MIXED), id) == {};
  }

  // ---- The service ----

  datatype MessageError =
    | EmptyMessage
    | NotAMember
    | UploadFailed
    | DatabaseFailed
    | StorageFailed
    | NotFound
    | NotYours
    | AlreadyDeleted

  /** The type of a message that is sent or loses a file. */
  ghost predicate IsTypeOf(messageType: MessageType, isSystem: bool, hasText: bool, hasFiles: bool) {
    match messageType
    case SYSTEM => isSystem
    case MIXED => !isSystem && hasText && hasFiles
    case FILE => !isSystem && hasFiles && !hasText
    case TEXT => !isSystem && !hasFiles
  }

  /** A message as it is stored when it is sent. */
  ghost predicate IsAsSent(m: Message, chatId: ChatId, senderId: UserId, content: Option<string>, isSystem: bool,
                           hasFiles: bool) {
    && m.chatId == chatId && m.senderId == senderId && !m.isDeleted
    && (if TextOf(content) != "" then m.content.Some? && m.content.value != "" && IsTrimmed(m.content.value, content.value)
        else m.content == None)
    && IsTypeOf(m.messageType, isSystem, TextOf(content) != "", hasFiles)
  }

  /** The message a file was taken from is deleted if nothing is left of it, and else has the type of what is left; all
      else about it, and every other message, is as it was. */
  ghost predicate LostFile(before: map<MessageId, Message>, after: map<MessageId, Message>, id: MessageId,
                           hasMore: bool)
    requires id in before
  {
    && id in after && after == before[id := after[id]]
    && after[id].chatId == before[id].chatId && after[id].senderId == before[id].senderId
    && after[id].content == before[id].content
    && (after[id].isDeleted <==> TextOf(before[id].content) == "" && !hasMore)
    && (if after[id].isDeleted then after[id].messageType == before[id].messageType
        else IsTypeOf(after[id].messageType, false, TextOf(before[id].content) != "", hasMore))
  }

  function StoredKeys(outcomes: Outcomes, n: nat): set<FileId> { set k | k in Stored(outcomes, n) }

  class MessageService {
    var messages: map<MessageId, Message>
    var files: map<FileId, MessageId>
    var storage: set<FileId>

    ghost function Abstract(): State reads this { State(messages, files, storage) }

    constructor ()
      ensures Abstract() == Initial
    {
      messages, files, storage := map[], map[], {};
    }

    /** Uploads first, then writes the rows; when the rows cannot be written, the uploads are taken back. `id` is new,
        and so is the storage key of every upload that works. */
    method SendMessage(id: MessageId, chatId: ChatId, senderId: UserId, isMember: bool, content: Option<string>,
                       names: seq<string>, outcomes: Outcomes, forcedType: Option<MessageType>, databaseUp: bool,
                       storageUp: bool)
      returns (r: Result<Message, MessageError>)
      requires Inv(Abstract()) && id !in messages
      requires forall i: nat :: outcomes(i).Some? ==> outcomes(i).value !in storage
      modifies this
      ensures var keys := StoredKeys(outcomes, |names|);
              var hasText := TextOf(content) != "";
              && (r == Failure(EmptyMessage) <==> !hasText && names == [])
              && (r == Failure(NotAMember) <==> (hasText || names != []) && !isMember)
              && (r.Success? <==>
                    (hasText || names != []) && isMember && (names == [] || keys != {}) && databaseUp)
              && (r == Failure(UploadFailed) <==> isMember && names != [] && keys == {})
              && (r.Success? ==>
                    IsStep(old(Abstract()), Send(id, chatId, senderId, content, forcedType, keys), Abstract()))
              && (r.Success? ==>
                    && messages == old(messages)[id := r.value]
                    && IsAsSent(r.value, chatId, senderId, content, forcedType == Some(SYSTEM), keys != {})
                    && storage == old(storage) + keys
                    && (forall f :: f in files <==> f in old(files) || f in keys)
                    && (forall f :: f in files ==> files[f] == if f in keys then id else old(files)[f]))
              && (r.Failure? ==>
                    messages == old(messages) && files == old(files)
                    && storage == (if storageUp || r != Failure(DatabaseFailed) then old(storage) else old(storage) + keys))
    {
      var hasText := |TextOf(content)| > 0;
      var hasFiles := |names| > 0;
      if !hasText && !hasFiles {
        return Failure(EmptyMessage);
      }
      if !isMember {
        return Failure(NotAMember);
      }
      var uploaded, uploadedFiles := UploadFiles(names, outcomes);
      if !uploaded {
        return Failure(UploadFailed);
      }
      if databaseUp {
        var message := CreateRows(id, chatId, senderId, content, forcedType, uploadedFiles);
        ghost var op := Send(id, chatId, senderId, content, forcedType, uploadedFiles);
        assert IsStep(old(Abstract()), op, Abstract()) by {
          SendStep(old(Abstract()), op);
        }
        return Success(message);
      }
      if storageUp {
        storage := storage - uploadedFiles;
      }
      return Failure(DatabaseFailed);
    }

    /** Fails exactly when there are files and none of them can be stored. */
    method UploadFiles(names: seq<string>, outcomes: Outcomes) returns (ok: bool, keys: set<FileId>)
      requires forall i: nat :: outcomes(i).Some? ==> outcomes(i).value !in storage
      modifies `storage
      ensures keys == StoredKeys(outcomes, |names|) && keys !! old(storage)
      ensures ok <==> names == [] || keys != {}
      ensures storage == old(storage) + keys
    {
      keys := {};
      if |names| == 0 {
        return true, keys;
      }
      var upload, _, _, _ := Upload(names, CONCURRENCY_LIMIT, outcomes);
      NoneStored(outcomes, |names|);
      StoredAreNew(outcomes, |names|, storage);
      if upload.Failure? {
        return false, keys;
      }
      keys := set k | k in upload.value.data;
      assert upload.value.data[0] in keys;
      storage := storage + keys;
      return true, keys;
    }

    method CreateRows(id: MessageId, chatId: ChatId, senderId: UserId, content: Option<string>,
                      forcedType: Option<MessageType>, keys: set<FileId>)
      returns (message: Message)
      requires keys !! files.Keys
      modifies `messages, `files
      ensures messages == old(messages)[id := message] && files == old(files) + (map f | f in keys :: id)
      ensures message == SentMessage(Send(id, chatId, senderId, content, forcedType, keys))
      ensures IsAsSent(message, chatId, senderId, content, forcedType == Some(SYSTEM), keys != {})
    {
      var trimmed := TextOf(content);
      if content.Some? {
        TrimIsTrimmed(content.value);
      }
      var messageType := ResolveMessageType(trimmed != "", keys != {}, forcedType);
      message := Message(chatId, senderId, if trimmed != "" then Some(trimmed) else None, messageType, false);
      messages := messages[id := message];
      files := files + (map f | f in keys :: id);
    }

    method EditMessage(id: MessageId, userId: UserId, isAdmin: bool, newContent: string)
      returns (r: Result<Message, MessageError>)
      requires Inv(Abstract())
      modifies this
      ensures Inv(Abstract())
      ensures r.Success? <==>
              Accepted(old(Abstract()), Edit(id, newContent)) && (isAdmin || old(messages)[id].senderId == userId)
      ensures Abstract() == if r.Success? then Step(old(Abstract()), Edit(id, newContent)) else old(Abstract())
      ensures files == old(files) && storage == old(storage)
      ensures r.Success? ==>
                && messages == old(messages)[id := r.value] && id in old(messages)
                && r.value.chatId == old(messages)[id].chatId && r.value.senderId == old(messages)[id].senderId
                && !r.value.isDeleted
                && r.value.content.Some? && IsTrimmed(r.value.content.value, newContent) && r.value.content.value != ""
                && r.value.messageType == if old(messages)[id].messageType == FILE then MIXED
                                          else old(messages)[id].messageType
      ensures r == Failure(EmptyMessage) <==> Trim(newContent) == ""
      ensures r == Failure(NotFound) <==> Trim(newContent) != "" && id !in old(messages)
      ensures r == Failure(NotYours) <==>
              Trim(newContent) != "" && id in old(messages) && !isAdmin && old(messages)[id].senderId != userId
    {
      StepInv(Abstract(), Edit(id, newContent));
      TrimIsTrimmed(newContent);
      if |Trim(newContent)| == 0 {
        return Failure(EmptyMessage);
      }
      if id !in messages {
        return Failure(NotFound);
      }
      if messages[id].senderId != userId && !isAdmin {
        return Failure(NotYours);
      }
      if messages[id].isDeleted {
        return Failure(AlreadyDeleted);
      }
      assert MessageOk(Abstract(), id);
      messages := messages[id := messages[id].(content := Some(Trim(newContent)))];
      var attachments := set f | f in files && files[f] == id;
      if |attachments| > 0 && messages[id].messageType == FILE {
        messages := messages[id := messages[id].(messageType := MIXED)];
      }
      return Success(messages[id]);
    }

    /** Deleting a message that is deleted already succeeds without effect. */
    method DeleteMessage(id: MessageId, userId: UserId, isAdmin: bool, storageUp: bool)
      returns (r: Result<(), MessageError>)
      requires Inv(Abstract())
      modifies this
      ensures Inv(Abstract())
      ensures r.Success? ==> id in messages && messages[id].isDeleted && Attachments(Abstract(), id) == {}
      ensures r.Success? ==> Abstract() == Step(old(Abstract()), Delete(id))
      ensures r.Success? ==>
                && id in old(messages) && messages == old(messages)[id := old(messages)[id].(isDeleted := true)]
                && (forall f :: f in files <==> f in old(files) && old(files)[f] != id)
                && (forall f :: f in files ==> files[f] == old(files)[f])
                && storage == files.Keys
      ensures r.Failure? ==> Abstract() == old(Abstract())
      ensures r.Success? <==>
              && id in old(messages) && (isAdmin || old(messages)[id].senderId == userId)
              && (storageUp || Attachments(old(Abstract()), id) == {})
      ensures r == Failure(NotFound) <==> id !in old(messages)
      ensures r == Failure(NotYours) <==> id in old(messages) && !isAdmin && old(messages)[id].senderId != userId
    {
      StepInv(Abstract(), Delete(id));
      if id !in messages {
        return Failure(NotFound);
      }
      if messages[id].senderId != userId && !isAdmin {
        return Failure(NotYours);
      }
      assert MessageOk(Abstract(), id);
      if messages[id].isDeleted {
        assert forall f :: f in files && files[f] == id ==> f in Attachments(Abstract(), id);
        return Success(());
      }
      var storageKeys := set f | f in files && files[f] == id;
      if |storageKeys| > 0 {
        if !storageUp {
          return Failure(StorageFailed);
        }
        storage := storage - storageKeys;
        files := files - storageKeys;
      }
      messages := messages[id := messages[id].(isDeleted := true)];
      assert Attachments(Abstract(), id) == {};
      assert Abstract() == Step(old(Abstract()), Delete(id));
      return Success(());
    }

    method DeleteFile(file: FileId, userId: UserId, isAdmin: bool, storageUp: bool)
      returns (r: Result<(), MessageError>)
      requires Inv(Abstract())
      modifies this
      ensures Inv(Abstract())
      ensures r.Success? <==>
              && Accepted(old(Abstract()), Op.DeleteFile(file)) && storageUp
              && (isAdmin || old(messages)[old(files)[file]].senderId == userId)
      ensures Abstract() == if r.Success? then Step(old(Abstract()), Op.DeleteFile(file)) else old(Abstract())
      ensures r.Success? ==>
                && file in old(files) && files == old(files) - {file} && storage == old(storage) - {file}
                && old(files)[file] in old(messages)
                && LostFile(old(messages), messages, old(files)[file], Attachments(old(Abstract()), old(files)[file]) != {file})
      ensures r == Failure(NotFound) <==> file !in old(files)
    {
      StepInv(Abstract(), Op.DeleteFile(file));
      if file !in files {
        return Failure(NotFound);
      }
      var id := files[file];
      if messages[id].senderId != userId && !isAdmin {
        return Failure(NotYours);
      }
      if messages[id].isDeleted {
        return Failure(AlreadyDeleted);
      }
      if !storageUp {
        return Failure(StorageFailed);
      }
      storage := storage - {file};
      files := files - {file};
      var hasText := |TextOf(messages[id].content)| > 0;
      var hasFiles := (set f | f in files && files[f] == id) != {};
      if !hasText && !hasFiles {
        messages := messages[id := messages[id].(isDeleted := true)];
      } else {
        var nextType := ResolveMessageType(hasText, hasFiles, None);
        if messages[id].messageType != nextType {
          messages := messages[id := messages[id].(messageType := nextType)];
        }
      }
      return Success(());
    }
  }

  lemma {:induction false} StoredAreNew(outcomes: Outcomes, n: nat, storage: set<FileId>)
    requires forall i: nat :: outcomes(i).Some? ==> outcomes(i).value !in storage
    ensures forall k :: k in Stored(outcomes, n) ==> k !in storage
  {
    if n > 0 {
      StoredAreNew(outcomes, n - 1, storage);
    }
  }
}
