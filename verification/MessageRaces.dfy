/** The message operations as their own repository and storage calls, which other operations can come between. None of
    them runs in a transaction: each await is a step, and any call can fail or never return. */
module MessageRaces {
  import opened Messages
  import opened Wrappers

  type ProcId = nat

  /** An operation between two calls. */
  datatype Proc =
    /** Sending: the files are in the storage, the rows not yet written. */
    | Uploaded(op: Op)
    /** Editing: checked and not yet written; then written, with a type still to be set. */
    | EditChecked(id: MessageId, newContent: string)
    | EditTyping(id: MessageId)
    /** Deleting a message: its files listed; gone from the storage; gone from the table, or none to begin with. */
    | DeleteListed(id: MessageId, keys: set<FileId>)
    | DeleteUnstored(id: MessageId, keys: set<FileId>)
    | DeleteEmptied(id: MessageId)
    /** Deleting a file: found; gone from the storage; gone from the table; and what its re-reading calls for. */
    | FileFound(id: MessageId, file: FileId)
    | FileUnstored(id: MessageId, file: FileId)
    | FileRemoved(id: MessageId)
    | Retyping(id: MessageId, messageType: MessageType)
    | Emptying(id: MessageId)

  /** `ids` and `keys` are the message ids and storage keys ever used: neither is used again. */
  datatype World = World(s: State, procs: map<ProcId, Proc>, ids: set<MessageId>, keys: set<FileId>)

  datatype Event =
    | Upload(proc: ProcId, op: Op)
    | Create(proc: ProcId)
    /** The rows cannot be written, and the uploads are taken back. */
    | TakeBack(proc: ProcId)
    | CheckEdit(proc: ProcId, id: MessageId, newContent: string)
    | WriteContent(proc: ProcId)
    | ListFiles(proc: ProcId, id: MessageId)
    | CheckFile(proc: ProcId, file: FileId)
    | Unstore(proc: ProcId)
    /** The storage refuses, which ends the operation before it has changed a row. */
    | StorageFails(proc: ProcId)
    | RemoveRows(proc: ProcId)
    | Reread(proc: ProcId)
    | WriteType(proc: ProcId)
    | MarkDeleted(proc: ProcId)
    | Abandon(proc: ProcId)

  /** The message an operation is about. */
  function About(p: Proc): MessageId {
    match p
    case Uploaded(op) => if op.Send? then op.id else 0
    case EditChecked(id, _) => id
    case EditTyping(id) => id
    case DeleteListed(id, _) => id
    case DeleteUnstored(id, _) => id
    case DeleteEmptied(id) => id
    case FileFound(id, _) => id
    case FileUnstored(id, _) => id
    case FileRemoved(id) => id
    case Retyping(id, _) => id
    case Emptying(id) => id
  }

  predicate IsLive(s: State, id: MessageId) { id in s.messages && !s.messages[id].isDeleted }

  function HasText(s: State, id: MessageId): bool
    requires id in s.messages
  {
    TextOf(s.messages[id].content) != ""
  }

  function HasFiles(s: State, id: MessageId): bool { Attachments(s, id) != {} }

  /** The type the row's text and attachments call for. */
  function RightType(s: State, id: MessageId): MessageType
    requires id in s.messages
  {
    ResolveMessageType(HasText(s, id), HasFiles(s, id), None)
  }

  predicate Enabled(w: World, e: Event) {
    match e
    case Upload(proc, op) =>
      && proc !in w.procs && op.Send? && (TextOf(op.content) != "" || op.keys != {})
      && op.id !in w.ids && op.keys !! w.keys
    case Create(proc) => proc in w.procs && w.procs[proc].Uploaded?
    case TakeBack(proc) => proc in w.procs && w.procs[proc].Uploaded?
    case CheckEdit(proc, id, newContent) => proc !in w.procs && IsLive(w.s, id) && Trim(newContent) != ""
    case WriteContent(proc) => proc in w.procs && w.procs[proc].EditChecked?
    case ListFiles(proc, id) => proc !in w.procs && IsLive(w.s, id)
    case CheckFile(proc, file) => proc !in w.procs && file in w.s.files && IsLive(w.s, w.s.files[file])
    case Unstore(proc) => proc in w.procs && (w.procs[proc].DeleteListed? || w.procs[proc].FileFound?)
    case StorageFails(proc) => proc in w.procs && (w.procs[proc].DeleteListed? || w.procs[proc].FileFound?)
    case RemoveRows(proc) => proc in w.procs && (w.procs[proc].DeleteUnstored? || w.procs[proc].FileUnstored?)
    case Reread(proc) => proc in w.procs && w.procs[proc].FileRemoved?
    case WriteType(proc) => proc in w.procs && (w.procs[proc].EditTyping? || w.procs[proc].Retyping?)
    case MarkDeleted(proc) => proc in w.procs && (w.procs[proc].DeleteEmptied? || w.procs[proc].Emptying?)
    case Abandon(proc) => proc in w.procs
  }

  function Go(w: World, proc: ProcId, p: Proc): World { w.(procs := w.procs[proc := p]) }

  function End(w: World, proc: ProcId): World { w.(procs := w.procs - {proc}) }

  /** The type a pending write is about to set. */
  function TypeWritten(p: Proc): MessageType
    requires p.EditTyping? || p.Retyping?
  {
    if p.EditTyping? then MIXED else p.messageType
  }

  /** The update returns the row as it is then; a file message that got text is to become mixed. */
  function AfterContent(w: World, proc: ProcId): World
    requires Enabled(w, WriteContent(proc))
  {
    var p := w.procs[proc];
    if p.id !in w.s.messages then End(w, proc)
    else
      var t := w.(s := UpdateContent(w.s, p.id, Trim(p.newContent)));
      if HasFiles(t.s, p.id) && t.s.messages[p.id].messageType == FILE then Go(t, proc, EditTyping(p.id))
      else End(t, proc)
  }

  /** Deleting the row of a file that is gone already is an error, which ends the operation. */
  function AfterRows(w: World, proc: ProcId): World
    requires Enabled(w, RemoveRows(proc))
  {
    var p := w.procs[proc];
    if p.DeleteUnstored? then
      Go(w.(s := w.s.(files := w.s.files - Attachments(w.s, p.id))), proc, DeleteEmptied(p.id))
    else if p.file !in w.s.files then End(w, proc)
    else Go(w.(s := w.s.(files := w.s.files - {p.file})), proc, FileRemoved(p.id))
  }

  function AfterReread(w: World, proc: ProcId): World
    requires Enabled(w, Reread(proc))
  {
    var id := w.procs[proc].id;
    if id !in w.s.messages then End(w, proc)
    else if !HasText(w.s, id) && !HasFiles(w.s, id) then Go(w, proc, Emptying(id))
    else if w.s.messages[id].messageType != RightType(w.s, id) then Go(w, proc, Retyping(id, RightType(w.s, id)))
    else End(w, proc)
  }

  function Apply(w: World, e: Event): World
    requires Enabled(w, e)
  {
    match e
    case Upload(proc, op) =>
      Go(w.(s := w.s.(storage := w.s.storage + op.keys), ids := w.ids + {op.id}, keys := w.keys + op.keys), proc,
         Uploaded(op))
    case Create(proc) =>
      var op := w.procs[proc].op;
      if !op.Send? then End(w, proc)
      else End(w, proc).(s := CreateMessage(w.s, op.id, SentMessage(op), op.keys))
    case TakeBack(proc) =>
      var op := w.procs[proc].op;
      End(w, proc).(s := if op.Send? then w.s.(storage := w.s.storage - op.keys) else w.s)
    case CheckEdit(proc, id, newContent) => Go(w, proc, EditChecked(id, newContent))
    case WriteContent(proc) => AfterContent(w, proc)
    case ListFiles(proc, id) =>
      Go(w, proc, if HasFiles(w.s, id) then DeleteListed(id, Attachments(w.s, id)) else DeleteEmptied(id))
    case CheckFile(proc, file) => Go(w, proc, FileFound(w.s.files[file], file))
    case Unstore(proc) =>
      var p := w.procs[proc];
      if p.DeleteListed? then
        Go(w.(s := w.s.(storage := w.s.storage - p.keys)), proc, DeleteUnstored(p.id, p.keys))
      else Go(w.(s := w.s.(storage := w.s.storage - {p.file})), proc, FileUnstored(p.id, p.file))
    case StorageFails(proc) => End(w, proc)
    case RemoveRows(proc) => AfterRows(w, proc)
    case Reread(proc) => AfterReread(w, proc)
    case WriteType(proc) =>
      var p := w.procs[proc];
      End(w, proc).(s := if p.id in w.s.messages then UpdateType(w.s, p.id, TypeWritten(p)) else w.s)
    case MarkDeleted(proc) =>
      var id := w.procs[proc].id;
      End(w, proc).(s := if id in w.s.messages then SoftDelete(w.s, id) else w.s)
    case Abandon(proc) => End(w, proc)
  }

  const Start := World(Initial, map[], {}, {})

  ghost predicate IsRun(ws: seq<World>, events: seq<Event>) {
    && |ws| == |events| + 1
    && ws[0] == Start
    && forall i :: 0 <= i < |events| ==> Enabled(ws[i], events[i]) && ws[i + 1] == Apply(ws[i], events[i])
  }

  // ---- What holds in every interleaving ----

  /** All files of the message are among these, and of these no other message has any. */
  predicate OwnFiles(s: State, id: MessageId, keys: set<FileId>) {
    Attachments(s, id) <= keys && forall f :: f in keys && f in s.files ==> s.files[f] == id
  }

  /** What one operation under way may rely on: what it has read of a message can since only have shrunk. */
  predicate ProcSound(s: State, p: Proc) {
    match p
    case Uploaded(op) =>
      && op.Send? && op.id !in s.messages && op.keys !! s.files.Keys && (TextOf(op.content) != "" || op.keys != {})
    case EditChecked(id, newContent) => id in s.messages && Trim(newContent) != ""
    case EditTyping(id) => id in s.messages && HasText(s, id)
    case DeleteListed(id, keys) => id in s.messages && OwnFiles(s, id, keys)
    case DeleteUnstored(id, keys) => id in s.messages && OwnFiles(s, id, keys)
    case DeleteEmptied(id) => id in s.messages && !HasFiles(s, id)
    case FileFound(id, file) => id in s.messages && (file in s.files ==> s.files[file] == id)
    case FileUnstored(id, file) => id in s.messages && (file in s.files ==> s.files[file] == id)
    case FileRemoved(id) => id in s.messages
    case Retyping(id, messageType) =>
      && id in s.messages && messageType != SYSTEM
      && (messageType == MIXED ==> HasText(s, id))
      && (messageType == TEXT ==> HasText(s, id) && !HasFiles(s, id))
    case Emptying(id) => id in s.messages && !HasFiles(s, id)
  }

  /** A file being sent is not one that somebody is deleting, nor being sent twice. */
  predicate Apart(p: Proc, q: Proc) {
    p.Uploaded? && p.op.Send? ==>
      match q
      case Uploaded(op) => op.Send? ==> op.id != p.op.id && op.keys !! p.op.keys
      case FileFound(_, file) => file !in p.op.keys
      case FileUnstored(_, file) => file !in p.op.keys
      case DeleteListed(_, keys) => keys !! p.op.keys
      case DeleteUnstored(_, keys) => keys !! p.op.keys
      case _ => true
  }

  predicate InUse(w: World, p: Proc) {
    match p
    case Uploaded(op) => op.Send? ==> op.id in w.ids && op.keys <= w.keys
    case FileFound(_, file) => file in w.keys
    case FileUnstored(_, file) => file in w.keys
    case DeleteListed(_, keys) => keys <= w.keys
    case DeleteUnstored(_, keys) => keys <= w.keys
    case _ => true
  }

  ghost predicate Sound(w: World) {
    && w.s.messages.Keys <= w.ids && w.s.files.Keys <= w.keys
    && (forall f :: f in w.s.files ==> w.s.files[f] in w.s.messages)
    && (forall q :: q in w.procs ==> ProcSound(w.s, w.procs[q]) && InUse(w, w.procs[q]))
    && (forall q, r :: q in w.procs && r in w.procs && q != r ==> Apart(w.procs[q], w.procs[r]))
  }

  /** Messages stay, text once there stays, and no message gets new files. */
  ghost predicate Evolves(s: State, t: State) {
    && s.messages.Keys <= t.messages.Keys
    && (forall id :: id in s.messages && HasText(s, id) ==> HasText(t, id))
    && (forall f :: f in t.files && t.files[f] in s.messages ==> f in s.files && s.files[f] == t.files[f])
  }

  lemma StateEvolves(w: World, e: Event)
    requires Sound(w) && Enabled(w, e)
    ensures Evolves(w.s, Apply(w, e).s)
  {
    if e.WriteContent? {
      TrimTwice(w.procs[e.proc].newContent);
    }
  }

  /** An operation that does nothing in this step. */
  lemma OtherProcSound(w: World, e: Event, q: ProcId)
    requires Sound(w) && Enabled(w, e) && q in w.procs && q != e.proc
    ensures ProcSound(Apply(w, e).s, w.procs[q])
  {
    var p, t := w.procs[q], Apply(w, e).s;
    StateEvolves(w, e);
    assert ProcSound(w.s, p);
    if p.Uploaded? {
      assert e.Create? ==> Apart(w.procs[e.proc], p);
    } else {
      if p.FileFound? || p.FileUnstored? || p.DeleteListed? || p.DeleteUnstored? {
        assert e.Create? ==> Apart(w.procs[e.proc], p);
      }
    }
  }

  lemma OwnProcSound(w: World, e: Event)
    requires Sound(w) && Enabled(w, e)
    ensures var t := Apply(w, e); e.proc in t.procs ==> ProcSound(t.s, t.procs[e.proc]) && InUse(t, t.procs[e.proc])
  {
    if e.proc in w.procs {
      assert ProcSound(w.s, w.procs[e.proc]) && InUse(w, w.procs[e.proc]);
    }
    if e.WriteContent? {
      TrimTwice(w.procs[e.proc].newContent);
    }
    if e.RemoveRows? && w.procs[e.proc].DeleteUnstored? {
      assert Attachments(Apply(w, e).s, w.procs[e.proc].id) == {};
    }
  }

  lemma ProcsApart(w: World, e: Event, q: ProcId, r: ProcId)
    requires Sound(w) && Enabled(w, e) && q != r && q in Apply(w, e).procs && r in Apply(w, e).procs
    ensures Apart(Apply(w, e).procs[q], Apply(w, e).procs[r])
  {
    if q in w.procs && r in w.procs {
      assert Apart(w.procs[q], w.procs[r]);
    }
    if q in w.procs {
      assert InUse(w, w.procs[q]) && ProcSound(w.s, w.procs[q]);
    }
    if r in w.procs {
      assert InUse(w, w.procs[r]);
    }
  }

  lemma SoundStep(w: World, e: Event)
    requires Sound(w) && Enabled(w, e)
    ensures Sound(Apply(w, e))
  {
    var t := Apply(w, e);
    forall q | q in t.procs ensures ProcSound(t.s, t.procs[q]) && InUse(t, t.procs[q]) {
      if q == e.proc {
        OwnProcSound(w, e);
      } else {
        OtherProcSound(w, e, q);
        assert InUse(w, w.procs[q]);
      }
    }
    forall q, r | q in t.procs && r in t.procs && q != r ensures Apart(t.procs[q], t.procs[r]) {
      ProcsApart(w, e, q, r);
    }
  }

  lemma {:induction false} RunSound(ws: seq<World>, events: seq<Event>, n: nat)
    requires IsRun(ws, events) && n <= |events|
    ensures Sound(ws[n])
  {
    if n > 0 {
      RunSound(ws, events, n - 1);
      SoundStep(ws[n - 1], events[n - 1]);
    }
  }

  // ---- Typing ----

  /** The write of a type that the row, just before it, still calls for. */
  predicate Agrees(w: World, e: Event)
    requires Enabled(w, e) && e.WriteType?
  {
    var p := w.procs[e.proc];
    About(p) in w.s.messages ==> TypeWritten(p) == RightType(w.s, About(p))
  }

  predicate WritesType(w: World, e: Event, id: MessageId)
    requires Enabled(w, e)
  {
    e.WriteType? && About(w.procs[e.proc]) == id
  }

  predicate IsWrong(s: State, id: MessageId) {
    IsLive(s, id) && s.messages[id].messageType != SYSTEM && s.messages[id].messageType != RightType(s, id)
  }

  predicate IsEmpty(s: State, id: MessageId) { IsLive(s, id) && !HasText(s, id) && !HasFiles(s, id) }

  /** An operation that is still going to delete the message, or to look at it again. */
  predicate WillLook(p: Proc, id: MessageId) {
    About(p) == id && (p.FileRemoved? || p.DeleteEmptied? || p.Emptying?)
  }

  /** An operation that is still going to put a wrong type right. */
  predicate WillFix(s: State, p: Proc, id: MessageId) {
    || WillLook(p, id)
    || (About(p) == id && (p.EditTyping? || p.Retyping?) && id in s.messages && TypeWritten(p) == RightType(s, id))
  }

  ghost predicate SomeoneLooks(w: World, id: MessageId) {
    exists q :: q in w.procs && WillLook(w.procs[q], id)
  }

  ghost predicate SomeoneFixes(w: World, id: MessageId) {
    exists q :: q in w.procs && WillFix(w.s, w.procs[q], id)
  }

  /** A wrong type that nothing can make right any more but another write. */
  predicate IsStuck(s: State, id: MessageId)
    requires id in s.messages
  {
    || (s.messages[id].messageType == MIXED && !HasFiles(s, id))
    || (s.messages[id].messageType == FILE && (HasText(s, id) || !HasFiles(s, id)))
  }

  /** Types never promise text or a lack of files that is not there. */
  predicate TypeBacked(s: State, id: MessageId)
    requires id in s.messages
  {
    && (s.messages[id].messageType == TEXT ==> HasText(s, id) && !HasFiles(s, id))
    && (s.messages[id].messageType == MIXED ==> HasText(s, id))
  }

  /** `agreed`: the last type written to the message, if any, agreed with the row when it was written. */
  ghost predicate Typing(w: World, id: MessageId, agreed: bool) {
    if id !in w.s.messages then agreed
    else
      && TypeBacked(w.s, id)
      && (!agreed ==> IsStuck(w.s, id))
      && (agreed && IsWrong(w.s, id) ==> SomeoneFixes(w, id))
      && (IsEmpty(w.s, id) ==> SomeoneLooks(w, id))
  }

  lemma OthersStay(w: World, e: Event, q: ProcId)
    requires Enabled(w, e) && q in w.procs && q != e.proc
    ensures q in Apply(w, e).procs && Apply(w, e).procs[q] == w.procs[q]
  {
  }

  /** The operation of this step is about another message. */
  lemma OtherMessageKept(w: World, e: Event, id: MessageId)
    requires Sound(w) && Enabled(w, e)
    requires e.proc in w.procs ==> About(w.procs[e.proc]) != id
    requires e.proc in Apply(w, e).procs ==> About(Apply(w, e).procs[e.proc]) != id
    ensures var t := Apply(w, e);
            && (id in t.s.messages <==> id in w.s.messages)
            && (id in w.s.messages ==> t.s.messages[id] == w.s.messages[id])
            && Attachments(t.s, id) == Attachments(w.s, id)
  {
    if e.proc in w.procs {
      assert ProcSound(w.s, w.procs[e.proc]);
    }
  }

  /** Neither the message nor anyone who is going to put it right has changed. */
  lemma TypingCarries(w: World, t: World, id: MessageId, agreed: bool)
    requires Typing(w, id, agreed)
    requires id in t.s.messages <==> id in w.s.messages
    requires id in w.s.messages ==> t.s.messages[id] == w.s.messages[id]
    requires Attachments(t.s, id) == Attachments(w.s, id)
    requires forall q :: q in w.procs && WillFix(w.s, w.procs[q], id) ==> q in t.procs && t.procs[q] == w.procs[q]
    ensures Typing(t, id, agreed)
  {
    if SomeoneLooks(w, id) {
      var q :| q in w.procs && WillLook(w.procs[q], id);
      assert WillFix(w.s, w.procs[q], id);
    }
    if SomeoneFixes(w, id) {
      var q :| q in w.procs && WillFix(w.s, w.procs[q], id);
      assert WillFix(t.s, t.procs[q], id);
    }
  }

  lemma OtherMessageTyping(w: World, e: Event, id: MessageId, agreed: bool)
    requires Sound(w) && Enabled(w, e) && Typing(w, id, agreed)
    requires e.proc in w.procs ==> About(w.procs[e.proc]) != id
    requires e.proc in Apply(w, e).procs ==> About(Apply(w, e).procs[e.proc]) != id
    ensures Typing(Apply(w, e), id, agreed)
  {
    OtherMessageKept(w, e, id);
    var t := Apply(w, e);
    forall q | q in w.procs && WillFix(w.s, w.procs[q], id) ensures q in t.procs && t.procs[q] == w.procs[q] {
      OthersStay(w, e, q);
    }
    TypingCarries(w, t, id, agreed);
  }

  /** Steps that read, or touch the storage only. */
  predicate LeavesRows(e: Event) {
    e.Upload? || e.TakeBack? || e.CheckEdit? || e.ListFiles? || e.CheckFile? || e.Unstore? || e.StorageFails?
  }

  lemma ReadingTyping(w: World, e: Event, id: MessageId, agreed: bool)
    requires Sound(w) && Enabled(w, e) && Typing(w, id, agreed) && LeavesRows(e)
    ensures Typing(Apply(w, e), id, agreed)
  {
    TypingCarries(w, Apply(w, e), id, agreed);
  }

  lemma CreateTyping(w: World, e: Event, agreed: bool)
    requires Sound(w) && Enabled(w, e) && e.Create?
    requires Typing(w, About(w.procs[e.proc]), agreed)
    ensures Typing(Apply(w, e), About(w.procs[e.proc]), agreed)
  {
    var op := w.procs[e.proc].op;
    assert ProcSound(w.s, w.procs[e.proc]);
    var t := Apply(w, e);
    assert forall f :: f in w.s.files ==> w.s.files[f] != op.id;
    assert Attachments(t.s, op.id) == op.keys;
    if op.content.Some? {
      TrimTwice(op.content.value);
    }
    assert TextOf(SentMessage(op).content) == TextOf(op.content);
  }

  lemma ContentTyping(w: World, e: Event, agreed: bool)
    requires Sound(w) && Enabled(w, e) && e.WriteContent?
    requires Typing(w, About(w.procs[e.proc]), agreed)
    ensures Typing(Apply(w, e), About(w.procs[e.proc]), agreed)
  {
    var p, t := w.procs[e.proc], Apply(w, e);
    var id := p.id;
    assert ProcSound(w.s, p);
    TrimTwice(p.newContent);
    assert HasText(t.s, id) && Attachments(t.s, id) == Attachments(w.s, id);
    if agreed && IsWrong(t.s, id) {
      if HasFiles(t.s, id) {
        assert WillFix(t.s, t.procs[e.proc], id);
      } else {
        assert IsWrong(w.s, id);
        var q :| q in w.procs && WillFix(w.s, w.procs[q], id);
        assert q in t.procs && WillFix(t.s, t.procs[q], id);
      }
    }
  }

  lemma RowsTyping(w: World, e: Event, agreed: bool)
    requires Sound(w) && Enabled(w, e) && e.RemoveRows?
    requires Typing(w, About(w.procs[e.proc]), agreed)
    ensures Typing(Apply(w, e), About(w.procs[e.proc]), agreed)
  {
    var p, t := w.procs[e.proc], Apply(w, e);
    assert ProcSound(w.s, p);
    if p.FileUnstored? && p.file !in w.s.files {
      TypingCarries(w, t, p.id, agreed);
    } else {
      StateEvolves(w, e);
      assert WillLook(t.procs[e.proc], p.id) && WillFix(t.s, t.procs[e.proc], p.id);
    }
  }

  lemma RereadTyping(w: World, e: Event, agreed: bool)
    requires Sound(w) && Enabled(w, e) && e.Reread?
    requires Typing(w, About(w.procs[e.proc]), agreed)
    ensures Typing(Apply(w, e), About(w.procs[e.proc]), agreed)
  {
    var id, t := w.procs[e.proc].id, Apply(w, e);
    assert ProcSound(w.s, w.procs[e.proc]);
    if e.proc in t.procs {
      assert t.procs[e.proc].Emptying? ==> WillLook(t.procs[e.proc], id);
      assert WillFix(t.s, t.procs[e.proc], id);
    }
  }

  lemma TypeTyping(w: World, e: Event, agreed: bool)
    requires Sound(w) && Enabled(w, e) && e.WriteType?
    requires Typing(w, About(w.procs[e.proc]), agreed)
    ensures Typing(Apply(w, e), About(w.procs[e.proc]), Agrees(w, e))
  {
    var p, t := w.procs[e.proc], Apply(w, e);
    var id := About(p);
    assert ProcSound(w.s, p);
    assert Attachments(t.s, id) == Attachments(w.s, id);
    if IsEmpty(w.s, id) {
      var q :| q in w.procs && WillLook(w.procs[q], id);
      assert q in t.procs && WillLook(t.procs[q], id);
    }
  }

  lemma DeletedTyping(w: World, e: Event, agreed: bool)
    requires Sound(w) && Enabled(w, e) && e.MarkDeleted?
    requires Typing(w, About(w.procs[e.proc]), agreed)
    ensures Typing(Apply(w, e), About(w.procs[e.proc]), agreed)
  {
    assert ProcSound(w.s, w.procs[e.proc]);
    assert Attachments(Apply(w, e).s, About(w.procs[e.proc])) == Attachments(w.s, About(w.procs[e.proc]));
  }

  /** Whether the last type written to the message still agrees, after this step. */
  predicate AgreedAfter(w: World, e: Event, id: MessageId, agreed: bool)
    requires Enabled(w, e)
  {
    if WritesType(w, e, id) then Agrees(w, e) else agreed
  }

  lemma TypingStep(w: World, e: Event, id: MessageId, agreed: bool)
    requires Sound(w) && Enabled(w, e) && Typing(w, id, agreed)
    requires e.Abandon? ==> About(w.procs[e.proc]) != id
    ensures Typing(Apply(w, e), id, AgreedAfter(w, e, id, agreed))
  {
    if LeavesRows(e) {
      ReadingTyping(w, e, id, agreed);
    } else if About(w.procs[e.proc]) != id {
      SameMessage(w, e);
      OtherMessageTyping(w, e, id, agreed);
    } else {
      match e {
        case Create(_) => CreateTyping(w, e, agreed);
        case WriteContent(_) => ContentTyping(w, e, agreed);
        case RemoveRows(_) => RowsTyping(w, e, agreed);
        case Reread(_) => RereadTyping(w, e, agreed);
        case WriteType(_) => TypeTyping(w, e, agreed);
        case MarkDeleted(_) => DeletedTyping(w, e, agreed);
      }
    }
  }

  /** An operation stays with its message. */
  lemma SameMessage(w: World, e: Event)
    requires Enabled(w, e) && !LeavesRows(e)
    ensures e.proc in Apply(w, e).procs ==>
              e.proc in w.procs && About(Apply(w, e).procs[e.proc]) == About(w.procs[e.proc])
  {
  }

  // ---- Whole runs ----

  /** No operation on this message was broken off in the first `n` steps. */
  ghost predicate NotAbandoned(ws: seq<World>, events: seq<Event>, n: nat, id: MessageId)
    requires IsRun(ws, events) && n <= |events|
  {
    forall i :: 0 <= i < n && events[i].Abandon? ==> About(ws[i].procs[events[i].proc]) != id
  }

  /** Nobody is at work on the message. */
  ghost predicate IsSettled(w: World, id: MessageId) {
    forall q :: q in w.procs ==> About(w.procs[q]) != id
  }

  /** The last of the first `n` steps that writes the message's type. */
  ghost predicate IsLastTypeWrite(ws: seq<World>, events: seq<Event>, k: nat, n: nat, id: MessageId)
    requires IsRun(ws, events) && n <= |events|
  {
    && k < n && WritesType(ws[k], events[k], id)
    && forall j :: k < j < n ==> !WritesType(ws[j], events[j], id)
  }

  ghost predicate LastWriteAgrees(ws: seq<World>, events: seq<Event>, n: nat, id: MessageId)
    requires IsRun(ws, events) && n <= |events|
  {
    forall k: nat :: IsLastTypeWrite(ws, events, k, n, id) ==> Agrees(ws[k], events[k])
  }

  lemma LastWriteNext(ws: seq<World>, events: seq<Event>, n: nat, m: nat, id: MessageId)
    requires IsRun(ws, events) && n < |events| && m == n + 1
    ensures LastWriteAgrees(ws, events, m, id)
            <==> AgreedAfter(ws[n], events[n], id, LastWriteAgrees(ws, events, n, id))
  {
    if WritesType(ws[n], events[n], id) {
      assert IsLastTypeWrite(ws, events, n, m, id);
      forall k: nat | IsLastTypeWrite(ws, events, k, m, id) ensures k == n {
      }
    } else {
      forall k: nat ensures IsLastTypeWrite(ws, events, k, m, id) <==> IsLastTypeWrite(ws, events, k, n, id) {
      }
    }
  }

  lemma {:induction false} RunTyping(ws: seq<World>, events: seq<Event>, n: nat, id: MessageId)
    requires IsRun(ws, events) && n <= |events| && NotAbandoned(ws, events, n, id)
    ensures Typing(ws[n], id, LastWriteAgrees(ws, events, n, id))
  {
    if n > 0 {
      RunTyping(ws, events, n - 1, id);
      RunSound(ws, events, n - 1);
      TypingStep(ws[n - 1], events[n - 1], id, LastWriteAgrees(ws, events, n - 1, id));
      LastWriteNext(ws, events, n - 1, n, id);
    }
  }

  /** In every interleaving: once nobody is at work on it and nobody has been broken off, a live message has text or an
      attachment, and the type those call for exactly when the last type written to it still agreed with the row just
      before it was written. */
  lemma TypingKeptExactly(ws: seq<World>, events: seq<Event>, n: nat, id: MessageId)
    requires IsRun(ws, events) && n <= |events| && NotAbandoned(ws, events, n, id)
    requires IsLive(ws[n].s, id) && IsSettled(ws[n], id)
    ensures HasText(ws[n].s, id) || HasFiles(ws[n].s, id)
    ensures WellTyped(ws[n].s.messages[id], Attachments(ws[n].s, id)) <==>
            forall k: nat :: IsLastTypeWrite(ws, events, k, n, id) ==> Agrees(ws[k], events[k])
  {
    RunTyping(ws, events, n, id);
  }

  /** So writes that all agree keep every message right, however the operations interleave. */
  lemma AgreeingWritesKeepTyping(ws: seq<World>, events: seq<Event>, n: nat, id: MessageId)
    requires IsRun(ws, events) && n <= |events| && NotAbandoned(ws, events, n, id)
    requires IsLive(ws[n].s, id) && IsSettled(ws[n], id)
    requires forall k :: 0 <= k < n && WritesType(ws[k], events[k], id) ==> Agrees(ws[k], events[k])
    ensures WellTyped(ws[n].s.messages[id], Attachments(ws[n].s, id))
  {
    TypingKeptExactly(ws, events, n, id);
  }

  // ---- Deletion ----

  ghost predicate DeletedBare(s: State) {
    forall id :: id in s.messages && s.messages[id].isDeleted ==> !HasFiles(s, id)
  }

  lemma DeletedBareStep(w: World, e: Event)
    requires Sound(w) && Enabled(w, e) && DeletedBare(w.s)
    ensures DeletedBare(Apply(w, e).s)
  {
    var t := Apply(w, e).s;
    StateEvolves(w, e);
    if e.proc in w.procs {
      assert ProcSound(w.s, w.procs[e.proc]);
    }
    forall id | id in t.messages && t.messages[id].isDeleted ensures !HasFiles(t, id) {
    }
  }

  /** In every interleaving, with failures and operations broken off anywhere, a deleted message has no attachments. */
  lemma {:induction false} DeletedHaveNoFiles(ws: seq<World>, events: seq<Event>, n: nat, id: MessageId)
    requires IsRun(ws, events) && n <= |events| && id in ws[n].s.messages && ws[n].s.messages[id].isDeleted
    ensures Attachments(ws[n].s, id) == {}
  {
    RunDeletedBare(ws, events, n);
  }

  lemma {:induction false} RunDeletedBare(ws: seq<World>, events: seq<Event>, n: nat)
    requires IsRun(ws, events) && n <= |events|
    ensures DeletedBare(ws[n].s)
  {
    if n > 0 {
      RunDeletedBare(ws, events, n - 1);
      RunSound(ws, events, n - 1);
      DeletedBareStep(ws[n - 1], events[n - 1]);
    }
  }

  /** An edit writes the message's text. */
  predicate WritesText(w: World, e: Event, id: MessageId)
    requires Enabled(w, e)
  {
    e.WriteContent? && About(w.procs[e.proc]) == id
  }

  lemma TextStep(w: World, e: Event, id: MessageId)
    requires Sound(w) && Enabled(w, e) && id in w.s.messages
    ensures id in Apply(w, e).s.messages
    ensures HasText(Apply(w, e).s, id) <==> HasText(w.s, id) || WritesText(w, e, id)
  {
    if e.proc in w.procs {
      assert ProcSound(w.s, w.procs[e.proc]);
    }
    if e.WriteContent? {
      TrimTwice(w.procs[e.proc].newContent);
    }
  }

  ghost predicate TextWrittenIn(ws: seq<World>, events: seq<Event>, k: nat, n: nat, id: MessageId)
    requires IsRun(ws, events) && n <= |events|
  {
    exists j :: k <= j < n && WritesText(ws[j], events[j], id)
  }

  lemma TextWrittenNext(ws: seq<World>, events: seq<Event>, k: nat, n: nat, m: nat, id: MessageId)
    requires IsRun(ws, events) && k <= n < |events| && m == n + 1
    ensures TextWrittenIn(ws, events, k, m, id) <==>
            TextWrittenIn(ws, events, k, n, id) || WritesText(ws[n], events[n], id)
  {
  }

  lemma {:induction false} TextSince(ws: seq<World>, events: seq<Event>, k: nat, n: nat, id: MessageId)
    requires IsRun(ws, events) && k <= n <= |events| && id in ws[k].s.messages
    ensures id in ws[n].s.messages
    ensures HasText(ws[n].s, id) <==> HasText(ws[k].s, id) || TextWrittenIn(ws, events, k, n, id)
    decreases n
  {
    if k < n {
      var j := n - 1;
      TextSince(ws, events, k, j, id);
      RunSound(ws, events, j);
      TextStep(ws[j], events[j], id);
      TextWrittenNext(ws, events, k, j, n, id);
    }
  }

  /** The deletion of the last file of a message without text, decided by the re-reading at `k`, takes text with it
      exactly when an edit writes it in between. It never takes a file. */
  lemma DeletionTakesTextExactly(ws: seq<World>, events: seq<Event>, k: nat, n: nat)
    requires IsRun(ws, events) && k < n < |events|
    requires events[k].Reread? && events[n].MarkDeleted? && events[n].proc == events[k].proc
    requires forall j :: k < j <= n ==> events[k].proc in ws[j].procs
    ensures ws[n].procs[events[n].proc].Emptying?
    ensures var id := About(ws[n].procs[events[n].proc]);
            && id in ws[n].s.messages && !HasFiles(ws[n].s, id)
            && (HasText(ws[n].s, id) <==> exists j :: k < j < n && WritesText(ws[j], events[j], id))
  {
    var p, m := events[k].proc, k + 1;
    RunSound(ws, events, k);
    RunSound(ws, events, n);
    assert ws[k + 1] == Apply(ws[k], events[k]);
    StillDeciding(ws, events, k, n);
    var id := About(ws[n].procs[p]);
    assert ProcSound(ws[n].s, ws[n].procs[p]);
    TextSince(ws, events, m, n, id);
    assert TextWrittenIn(ws, events, m, n, id) <==> exists j :: k < j < n && WritesText(ws[j], events[j], id);
  }

  predicate IsDeciding(p: Proc) { p.Retyping? || p.Emptying? }

  lemma DecisionKept(w: World, e: Event, q: ProcId)
    requires Enabled(w, e) && q in w.procs && IsDeciding(w.procs[q]) && q in Apply(w, e).procs
    ensures Apply(w, e).procs[q] == w.procs[q]
  {
    if q != e.proc {
      OthersStay(w, e, q);
    }
  }

  lemma RereadDecides(w: World, e: Event)
    requires Enabled(w, e) && e.Reread? && e.proc in Apply(w, e).procs
    ensures IsDeciding(Apply(w, e).procs[e.proc])
  {
  }

  /** Until its write, an operation that has re-read its message keeps its decision. */
  lemma {:induction false} StillDeciding(ws: seq<World>, events: seq<Event>, k: nat, n: nat)
    requires IsRun(ws, events) && k < n <= |events| && events[k].Reread?
    requires forall j :: k < j <= n ==> events[k].proc in ws[j].procs
    ensures ws[n].procs[events[k].proc] == ws[k + 1].procs[events[k].proc]
    ensures IsDeciding(ws[n].procs[events[k].proc])
    decreases n
  {
    var j := n - 1;
    assert ws[j + 1] == Apply(ws[j], events[j]);
    if k < j {
      StillDeciding(ws, events, k, j);
      DecisionKept(ws[j], events[j], events[k].proc);
    } else {
      RereadDecides(ws[k], events[k]);
    }
  }

  // ---- Storage ----

  /** The storage copy of this file is gone and its row is about to go. */
  predicate Unstoring(s: State, p: Proc, f: FileId) {
    || (p.DeleteUnstored? && f in p.keys && f in s.files && s.files[f] == p.id)
    || (p.FileUnstored? && f == p.file)
  }

  predicate Sending(p: Proc, f: FileId) { p.Uploaded? && p.op.Send? && f in p.op.keys }

  /** Keys are not used again, so what has gone from the storage stays gone, and what waits for its rows is there. */
  predicate StorageKept(s: State, p: Proc) {
    && (p.Uploaded? && p.op.Send? ==> p.op.keys <= s.storage)
    && (p.DeleteUnstored? ==> p.keys !! s.storage)
    && (p.FileUnstored? ==> p.file !in s.storage)
  }

  ghost predicate StorageOk(w: World) {
    && w.s.storage <= w.keys
    && (forall q :: q in w.procs ==> StorageKept(w.s, w.procs[q]))
    && (forall f :: f in w.s.storage && f !in w.s.files ==> exists q :: q in w.procs && Sending(w.procs[q], f))
    && (forall f :: f in w.s.files && f !in w.s.storage ==> exists q :: q in w.procs && Unstoring(w.s, w.procs[q], f))
  }

  lemma OrphanStep(w: World, e: Event, f: FileId)
    requires Sound(w) && Enabled(w, e) && StorageOk(w) && !e.Abandon?
    requires f in Apply(w, e).s.storage && f !in Apply(w, e).s.files
    ensures exists q :: q in Apply(w, e).procs && Sending(Apply(w, e).procs[q], f)
  {
    var t := Apply(w, e);
    if e.Upload? && f in e.op.keys {
      assert Sending(t.procs[e.proc], f);
    } else {
      OrphanBefore(w, e, f);
      var q :| q in w.procs && Sending(w.procs[q], f);
      SenderKept(w, e, f, q);
    }
  }

  lemma OrphanBefore(w: World, e: Event, f: FileId)
    requires Sound(w) && Enabled(w, e) && StorageOk(w) && !(e.Upload? && f in e.op.keys)
    requires f in Apply(w, e).s.storage && f !in Apply(w, e).s.files
    ensures f in w.s.storage && f !in w.s.files
  {
    if e.proc in w.procs {
      assert ProcSound(w.s, w.procs[e.proc]) && StorageKept(w.s, w.procs[e.proc]);
    }
  }

  lemma SenderKept(w: World, e: Event, f: FileId, q: ProcId)
    requires Enabled(w, e) && !e.Abandon? && q in w.procs && Sending(w.procs[q], f)
    requires f in Apply(w, e).s.storage && f !in Apply(w, e).s.files
    ensures q in Apply(w, e).procs && Sending(Apply(w, e).procs[q], f)
  {
  }

  lemma DanglingStep(w: World, e: Event, f: FileId)
    requires Sound(w) && Enabled(w, e) && StorageOk(w) && !e.Abandon?
    requires f in Apply(w, e).s.files && f !in Apply(w, e).s.storage
    ensures exists q :: q in Apply(w, e).procs && Unstoring(Apply(w, e).s, Apply(w, e).procs[q], f)
  {
    if e.Unstore? && f in w.s.storage {
      FirstUnstoring(w, e, f);
    } else {
      NewRowsStored(w, e, f);
      var q :| q in w.procs && Unstoring(w.s, w.procs[q], f);
      UnstoringKept(w, e, f, q);
    }
  }

  lemma FirstUnstoring(w: World, e: Event, f: FileId)
    requires Sound(w) && Enabled(w, e) && e.Unstore? && f in w.s.storage
    requires f in Apply(w, e).s.files && f !in Apply(w, e).s.storage
    ensures e.proc in Apply(w, e).procs && Unstoring(Apply(w, e).s, Apply(w, e).procs[e.proc], f)
  {
    assert ProcSound(w.s, w.procs[e.proc]);
  }

  lemma UnstoringKept(w: World, e: Event, f: FileId, q: ProcId)
    requires Sound(w) && Enabled(w, e) && !e.Abandon? && q in w.procs && Unstoring(w.s, w.procs[q], f)
    requires f in w.s.files && f in Apply(w, e).s.files && Apply(w, e).s.files[f] == w.s.files[f]
    ensures q in Apply(w, e).procs && Unstoring(Apply(w, e).s, Apply(w, e).procs[q], f)
  {
  }

  /** A row is written only for a file that is in the storage. */
  lemma NewRowsStored(w: World, e: Event, f: FileId)
    requires Sound(w) && Enabled(w, e) && StorageOk(w) && !e.Abandon? && !(e.Unstore? && f in w.s.storage)
    requires f in Apply(w, e).s.files && f !in Apply(w, e).s.storage
    ensures f in w.s.files && Apply(w, e).s.files[f] == w.s.files[f] && f !in w.s.storage
  {
    if e.proc in w.procs {
      assert ProcSound(w.s, w.procs[e.proc]) && StorageKept(w.s, w.procs[e.proc]);
    }
  }

  lemma StorageKeptStep(w: World, e: Event, q: ProcId)
    requires Sound(w) && Enabled(w, e) && StorageOk(w) && q in Apply(w, e).procs
    ensures StorageKept(Apply(w, e).s, Apply(w, e).procs[q])
  {
    if q in w.procs {
      assert StorageKept(w.s, w.procs[q]) && InUse(w, w.procs[q]);
    }
    if q != e.proc && e.proc in w.procs && q in w.procs {
      assert Apart(w.procs[q], w.procs[e.proc]);
    }
  }

  lemma StorageStep(w: World, e: Event)
    requires Sound(w) && Enabled(w, e) && StorageOk(w) && !e.Abandon?
    ensures StorageOk(Apply(w, e))
  {
    var t := Apply(w, e);
    forall q | q in t.procs ensures StorageKept(t.s, t.procs[q]) {
      StorageKeptStep(w, e, q);
    }
    forall f | f in t.s.storage && f !in t.s.files ensures exists q :: q in t.procs && Sending(t.procs[q], f) {
      OrphanStep(w, e, f);
    }
    forall f | f in t.s.files && f !in t.s.storage ensures exists q :: q in t.procs && Unstoring(t.s, t.procs[q], f) {
      DanglingStep(w, e, f);
    }
  }

  lemma {:induction false} RunStorage(ws: seq<World>, events: seq<Event>, n: nat)
    requires IsRun(ws, events) && n <= |events|
    requires forall i :: 0 <= i < n ==> !events[i].Abandon?
    ensures StorageOk(ws[n])
  {
    if n > 0 {
      RunStorage(ws, events, n - 1);
      RunSound(ws, events, n - 1);
      StorageStep(ws[n - 1], events[n - 1]);
    }
  }

  /** In every interleaving in which nothing is broken off, failed writes and refusing storage included: a stored file
      without a row belongs to a message being sent, a row without its file to one being deleted, and when nobody is at
      work storage and rows hold the same files. */
  lemma NothingOrphaned(ws: seq<World>, events: seq<Event>, n: nat)
    requires IsRun(ws, events) && n <= |events|
    requires forall i :: 0 <= i < n ==> !events[i].Abandon?
    ensures forall f :: f in ws[n].s.storage - ws[n].s.files.Keys ==>
              exists q :: q in ws[n].procs && Sending(ws[n].procs[q], f)
    ensures forall f :: f in ws[n].s.files.Keys - ws[n].s.storage ==>
              exists q :: q in ws[n].procs && Unstoring(ws[n].s, ws[n].procs[q], f)
    ensures ws[n].procs == map[] ==> ws[n].s.storage == ws[n].s.files.Keys
  {
    RunStorage(ws, events, n);
  }

  // ---- Undisturbed ----

  lemma SendAlone(w: World, proc: ProcId, op: Op)
    requires Enabled(w, Upload(proc, op)) && Accepted(w.s, op)
    ensures var w1 := Apply(w, Upload(proc, op));
            && Enabled(w1, Create(proc))
            && Apply(w1, Create(proc)).s == Step(w.s, op) && Apply(w1, Create(proc)).procs == w.procs
  {
    var w1 := Apply(w, Upload(proc, op));
    assert w1.procs[proc] == Uploaded(op);
    assert w1.procs - {proc} == w.procs;
  }

  /** An edit by itself is the edit of the run theorems; the second write comes exactly when a file message got text. */
  lemma EditAlone(w: World, proc: ProcId, id: MessageId, newContent: string)
    requires Enabled(w, CheckEdit(proc, id, newContent))
    ensures var w1 := Apply(w, CheckEdit(proc, id, newContent));
            && Enabled(w1, WriteContent(proc))
            && var w2 := Apply(w1, WriteContent(proc));
               if HasFiles(w.s, id) && w.s.messages[id].messageType == FILE
               then Enabled(w2, WriteType(proc)) && Apply(w2, WriteType(proc)).s == Step(w.s, Edit(id, newContent))
               else proc !in w2.procs && w2.s == Step(w.s, Edit(id, newContent))
  {
    var w1 := Apply(w, CheckEdit(proc, id, newContent));
    var w2 := Apply(w1, WriteContent(proc));
    assert Attachments(w2.s, id) == Attachments(w.s, id);
  }

  lemma DeleteAlone(w: World, proc: ProcId, id: MessageId)
    requires Enabled(w, ListFiles(proc, id))
    ensures var w1 := Apply(w, ListFiles(proc, id));
            if HasFiles(w.s, id) then
              && Enabled(w1, Unstore(proc))
              && var w2 := Apply(w1, Unstore(proc));
                 && Enabled(w2, RemoveRows(proc))
                 && var w3 := Apply(w2, RemoveRows(proc));
                    Enabled(w3, MarkDeleted(proc)) && Apply(w3, MarkDeleted(proc)).s == Step(w.s, Op.Delete(id))
            else Enabled(w1, MarkDeleted(proc)) && Apply(w1, MarkDeleted(proc)).s == Step(w.s, Op.Delete(id))
  {
    var w1 := Apply(w, ListFiles(proc, id));
    if HasFiles(w.s, id) {
      var w2 := Apply(w1, Unstore(proc));
      assert Attachments(w2.s, id) == Attachments(w.s, id);
    } else {
      assert RemoveFiles(w.s, Attachments(w.s, id)) == w.s;
    }
  }

  /** The deletion of a file by itself: what its re-reading calls for is done, and is that of the run theorems. */
  lemma DeleteFileAlone(w: World, proc: ProcId, file: FileId)
    requires Enabled(w, CheckFile(proc, file))
    ensures var w1 := Apply(w, CheckFile(proc, file));
            && Enabled(w1, Unstore(proc))
            && var w2 := Apply(w1, Unstore(proc));
               && Enabled(w2, RemoveRows(proc))
               && var w3 := Apply(w2, RemoveRows(proc));
                  && Enabled(w3, Reread(proc))
                  && var w4 := Apply(w3, Reread(proc));
                     var t := Step(w.s, Op.DeleteFile(file));
                     if proc !in w4.procs then w4.s == t
                     else if w4.procs[proc].Emptying? then
                       Enabled(w4, MarkDeleted(proc)) && Apply(w4, MarkDeleted(proc)).s == t
                     else Enabled(w4, WriteType(proc)) && Apply(w4, WriteType(proc)).s == t
  {
    var w1 := Apply(w, CheckFile(proc, file));
    var w2 := Apply(w1, Unstore(proc));
    var w3 := Apply(w2, RemoveRows(proc));
    assert w3.s == RemoveFiles(w.s, {file});
  }

  // ---- An edit and the deletion of the only file ----

  lemma ExtendRun(ws: seq<World>, events: seq<Event>, e: Event)
    requires IsRun(ws, events) && Enabled(ws[|events|], e)
    ensures IsRun(ws + [Apply(ws[|events|], e)], events + [e])
  {
  }

  /** Message 0 with file 7 and text or none, for its sender 1. */
  function Scene(content: Option<string>, messageType: MessageType, files: map<FileId, MessageId>, storage: set<FileId>,
                 procs: map<ProcId, Proc>): World {
    World(State(map[0 := Message(0, 1, content, messageType, false)], files, storage), procs, {0}, {7})
  }

  lemma FileSent() returns (ws: seq<World>, events: seq<Event>)
    ensures IsRun(ws, events) && ws[|events|] == Scene(None, FILE, map[7 := 0], {7}, map[])
  {
    var e1, e2 := Upload(1, Send(0, 0, 1, None, None, {7})), Create(1);
    ws, events := [Start], [];
    ExtendRun(ws, events, e1);
    ws, events := ws + [Apply(ws[|events|], e1)], events + [e1];
    ExtendRun(ws, events, e2);
    ws, events := ws + [Apply(ws[|events|], e2)], events + [e2];
    assert ws[|events|] == Scene(None, FILE, map[7 := 0], {7}, map[]);
  }

  lemma TextWritten() returns (ws: seq<World>, events: seq<Event>)
    ensures IsRun(ws, events)
    ensures ws[|events|] == Scene(Some("hi"), FILE, map[7 := 0], {7}, map[2 := EditTyping(0)])
  {
    ws, events := FileSent();
    assert Trim("hi") == "hi";
    var e3, e4 := CheckEdit(2, 0, "hi"), WriteContent(2);
    ExtendRun(ws, events, e3);
    ws, events := ws + [Apply(ws[|events|], e3)], events + [e3];
    assert ws[|events|].procs == map[2 := EditChecked(0, "hi")];
    ExtendRun(ws, events, e4);
    var t := Scene(Some("hi"), FILE, map[7 := 0], {7}, map[2 := EditChecked(0, "hi")]);
    assert 7 in Attachments(t.s, 0);
    assert ws[|events|] == Scene(None, FILE, map[7 := 0], {7}, map[2 := EditChecked(0, "hi")]);
    assert AfterContent(ws[|events|], 2) == Scene(Some("hi"), FILE, map[7 := 0], {7}, map[2 := EditTyping(0)]);
    ws, events := ws + [Apply(ws[|events|], e4)], events + [e4];
  }

  lemma FileGone() returns (ws: seq<World>, events: seq<Event>)
    ensures IsRun(ws, events)
    ensures ws[|events|] == Scene(Some("hi"), FILE, map[], {}, map[2 := EditTyping(0), 3 := FileRemoved(0)])
  {
    ws, events := TextWritten();
    var e5, e6, e7 := CheckFile(3, 7), Unstore(3), RemoveRows(3);
    ExtendRun(ws, events, e5);
    ws, events := ws + [Apply(ws[|events|], e5)], events + [e5];
    assert ws[|events|].procs == map[2 := EditTyping(0), 3 := FileFound(0, 7)];
    ExtendRun(ws, events, e6);
    ws, events := ws + [Apply(ws[|events|], e6)], events + [e6];
    assert ws[|events|].procs == map[2 := EditTyping(0), 3 := FileUnstored(0, 7)];
    ExtendRun(ws, events, e7);
    ws, events := ws + [Apply(ws[|events|], e7)], events + [e7];
    assert ws[|events|] == Scene(Some("hi"), FILE, map[], {}, map[2 := EditTyping(0), 3 := FileRemoved(0)]);
  }

  lemma RetypedText() returns (ws: seq<World>, events: seq<Event>)
    ensures IsRun(ws, events)
    ensures ws[|events|] == Scene(Some("hi"), TEXT, map[], {}, map[2 := EditTyping(0)])
  {
    ws, events := FileGone();
    assert Trim("hi") == "hi";
    assert Attachments(ws[|events|].s, 0) == {};
    var e8, e9 := Reread(3), WriteType(3);
    ExtendRun(ws, events, e8);
    ws, events := ws + [Apply(ws[|events|], e8)], events + [e8];
    assert ws[|events|].procs == map[2 := EditTyping(0), 3 := Retyping(0, TEXT)];
    ExtendRun(ws, events, e9);
    ws, events := ws + [Apply(ws[|events|], e9)], events + [e9];
    assert ws[|events|] == Scene(Some("hi"), TEXT, map[], {}, map[2 := EditTyping(0)]);
  }

  /** From the start: a file is sent, an edit writes its text and sees type FILE, the file is deleted and the message
      re-typed TEXT, and then the edit writes MIXED. Nobody is at work any more and a text message is left as MIXED. */
  lemma EditOutlivesFile() returns (ws: seq<World>, events: seq<Event>)
    ensures IsRun(ws, events) && ws[|events|].procs == map[]
    ensures IsLive(ws[|events|].s, 0) && HasText(ws[|events|].s, 0) && !HasFiles(ws[|events|].s, 0)
    ensures ws[|events|].s.messages[0].messageType == MIXED
    ensures !WellTyped(ws[|events|].s.messages[0], Attachments(ws[|events|].s, 0))
  {
    ws, events := RetypedText();
    assert Trim("hi") == "hi";
    ExtendRun(ws, events, WriteType(2));
    ws, events := ws + [Apply(ws[|events|], WriteType(2))], events + [WriteType(2)];
    assert ws[|events|] == Scene(Some("hi"), MIXED, map[], {}, map[]);
    assert Attachments(ws[|events|].s, 0) == {};
  }
}
