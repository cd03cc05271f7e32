/** A plaintext versioned store: what the encrypted store is for.  It holds values and versions of
    values, a password and a locked flag; it knows nothing of keys, nonces or ciphertexts. */
module PlainStore {
  import opened Prelude
  import opened Crypto
  import opened Vault

  /** What a stored ciphertext says: nothing stored, nothing legible, or a value. */
  datatype Reading = Missing | Garbled | Clear(value: Bytes)

  datatype Version = Version(id: Bytes, fingerprint: Option<Fingerprint>, content: Reading)

  datatype Item =
    Item(id: Bytes, kind: Kind, content: Reading, attrs: Attributes, lastRotatedAt: Option<int>,
         deleted: bool, history: seq<Version>, llm: Option<LlmKey>)

  datatype Plain = Plain(items: map<Bytes, Item>, password: string, unlocked: bool)

  function Mark(r: Reading, unlocked: bool): Option<Fingerprint> {
    if unlocked && r.Clear? then Some(Sha256Prefix(r.value)) else None
  }

  predicate LabelUsed(items: map<Bytes, Item>, provider: Bytes, keyLabel: Bytes) {
    exists n :: n in items && items[n].llm.Some?
                && items[n].llm.value.provider == provider && items[n].llm.value.keyLabel == keyLabel
  }

  function Replace(it: Item, content: Reading, unlocked: bool, rotationId: Bytes, now: int): Item {
    it.(content := content, lastRotatedAt := Some(now),
    history := it.history + [Version(rotationId, Mark(it.content, unlocked), it.content)])
  }

  function FindVersion(history: seq<Version>, id: Bytes): (r: Option<nat>)
    ensures r.Some? ==> r.value < |history| && history[r.value].id == id
    ensures r.None? ==> forall i :: 0 <= i < |history| ==> history[i].id != id
    ensures r.Some? ==> forall i :: 0 <= i < r.value ==> history[i].id != id
  {
    if history == [] then None
    else if history[0].id == id then Some(0)
    else match FindVersion(history[1..], id)
         case None => assert forall i :: 1 <= i < |history| ==> history[i] == history[1..][i - 1]; None
         case Some(i) => assert forall j :: 1 <= j <= i ==> history[j] == history[1..][j - 1]; Some(i + 1)
  }

  function Forget(r: Reading): Reading {
    if r.Clear? then Garbled else r
  }

  function ForgetItem(it: Item): Item {
    it.(content := Forget(it.content),
    history := seq(|it.history|, i requires 0 <= i < |it.history| =>
      it.history[i].(content := Forget(it.history[i].content))))
  }

  function LiveItems(items: map<Bytes, Item>): set<Bytes> {
    set n | n in items && !items[n].deleted
  }

  /** What a change of password leaves of the items. */
  function CarryOver(items: map<Bytes, Item>, reencrypt: bool): map<Bytes, Item> {
    map n | n in items :: if reencrypt && !items[n].deleted then items[n] else ForgetItem(items[n])
  }

  function PStep(p: Plain, op: Op): (Plain, Outcome) {
    match op
    case Create(d, id, _) =>
      if d.name in p.items then (p, Fail(AlreadyExists))
      else if !p.unlocked then (p, Fail(Locked))
      else if d.kind.Llm? && d.provider == [] then (p, Fail(MissingProvider))
      else if d.kind.Llm? && LabelUsed(p.items, d.provider, LabelOf(d)) then (p, Fail(LabelTaken))
      else (p.(items := p.items[d.name := Item(id, d.kind, Clear(d.value), d.attrs, None, false, [], LlmOf(d))]), Done)
    case Update(name, ch, rid, _, now) =>
      if name !in p.items then (p, Fail(NotFound)) else
      var it := p.items[name].(attrs := Amend(p.items[name].attrs, ch));
      if ch.value.None? then (p.(items := p.items[name := it]), Done)
      else if !p.unlocked then (p, Fail(Locked))
      else (p.(items := p.items[name := Replace(it, Clear(ch.value.value), true, rid, now)]), Done)
    case Rollback(name, target, rid, now) =>
      if name !in p.items then (p, Fail(NotFound)) else
      var it := p.items[name];
      (match FindVersion(it.history, target)
       case None => (p, Fail(NoSuchRotation))
       case Some(i) =>
         if it.history[i].content.Missing? then (p, Fail(NoStoredValue))
         else (p.(items := p.items[name := Replace(it, it.history[i].content, p.unlocked, rid, now)]), Done))
    case Delete(name) =>
      if name !in p.items then (p, Fail(NotFound))
      else (p.(items := p.items[name := p.items[name].(deleted := true)]), Done)
    case Reveal(name) =>
      (p, if name !in p.items || p.items[name].deleted then Fail(NotFound)
       else if !p.unlocked then Fail(Locked)
       else if p.items[name].content.Clear? then Secret(p.items[name].content.value)
       else Fail(Undecryptable))
    case Lock => (p.(unlocked := false), Done)
    case Unlock(password) =>
      if password != p.password then (p, Unlocked(false)) else (p.(unlocked := true), Unlocked(true))
    case ChangePassword(oldPw, newPw, _, reencrypt, commits, _) =>
      if !p.unlocked then (p, Fail(Locked))
      else if |newPw| < MIN_PASSWORD then (p, Fail(PasswordTooShort))
      else if oldPw != p.password then (p, Fail(WrongPassword))
      else if reencrypt && exists n :: n in LiveItems(p.items) && !p.items[n].content.Clear? then
        (p, Fail(Undecryptable))
      else if !commits then (p, Fail(CommitFailed))
      else
        (Plain(CarryOver(p.items, reencrypt), newPw, true), Reencrypted(if reencrypt then |LiveItems(p.items)| else 0))
  }

  function PRun(p: Plain, ops: seq<Op>): Plain
    decreases |ops|
  {
    if ops == [] then p else PRun(PStep(p, ops[0]).0, ops[1..])
  }
}
