/** Moving and deleting one message over IMAP, for every mix of MOVE and UIDPLUS.
    Each command may fail before, after or halfway through its effect, and other
    sessions act between commands; none acts between a DELETED search and EXPUNGE. */
module MailMove {
  import opened Base

  /** `mail` is every message the mailbox ever held, by UID; `source` the UIDs in it
      now with their deleted flag; `dest` what is filed in the destination;
      `removed` the UIDs that this session's commands removed. */
  datatype World = World(
    mail: map<nat, string>,
    source: map<nat, bool>,
    dest: seq<string>,
    next: nat,
    removed: set<nat>)

  datatype Command = Move(uid: nat) | Copy(uid: nat) | Store(uid: nat) | UidExpunge(uid: nat) | Expunge

  /** `Refused` fails with no effect, `Lost` with the whole effect, `Halfway`
      with the copying part of it. */
  datatype Fate = Done | Refused | Lost | Halfway

  /** What other sessions do: flag, expunge flagged mail, deliver, file. */
  datatype Outside =
    | Flag(uid: nat, deleted: bool)
    | Purge(uids: set<nat>)
    | Deliver(content: string)
    | File(content: string)

  /** What happens before the n-th command of a call, and how that command fares. */
  datatype Script = Script(outside: nat -> seq<Outside>, fate: nat -> Fate)

  function Flagged(source: map<nat, bool>): (r: set<nat>)
    ensures forall u :: u in r <==> u in source && source[u]
  {
    set u | u in source && source[u]
  }

  /** UIDs are never reused, and a message's content never changes. */
  ghost predicate Valid(w: World) { w.source.Keys <= w.mail.Keys && forall u | u in w.mail :: u < w.next }

  function Filing(w: World, uid: nat): seq<string>
    requires Valid(w)
  {
    if uid in w.source then [w.mail[uid]] else []
  }

  function CopyOf(w: World, uid: nat): World
    requires Valid(w)
  {
    w.(dest := w.dest + Filing(w, uid))
  }

  function Without(w: World, uids: set<nat>): World {
    w.(source := w.source - uids, removed := w.removed + (uids * w.source.Keys))
  }

  function WithFlag(source: map<nat, bool>, uid: nat, deleted: bool): map<nat, bool> {
    if uid in source then source[uid := deleted] else source
  }

  /** The full effect of a command: unknown UIDs are ignored. */
  function Effect(w: World, c: Command): World
    requires Valid(w)
  {
    match c
    case Move(uid) => Without(CopyOf(w, uid), {uid})
    case Copy(uid) => CopyOf(w, uid)
    case Store(uid) => w.(source := WithFlag(w.source, uid, true))
    case UidExpunge(uid) => Without(w, {uid} * Flagged(w.source))
    case Expunge => Without(w, Flagged(w.source))
  }

  function Issued(w: World, c: Command, fate: Fate): World
    requires Valid(w)
  {
    match fate
    case Done => Effect(w, c)
    case Refused => w
    case Lost => Effect(w, c)
    case Halfway => if c.Move? then CopyOf(w, c.uid) else w
  }

  function OutsideStep(w: World, o: Outside): (r: World)
    requires Valid(w)
    ensures Valid(r) && r.removed == w.removed
  {
    match o
    case Flag(uid, deleted) => w.(source := WithFlag(w.source, uid, deleted))
    case Purge(uids) => w.(source := w.source - (uids * Flagged(w.source)))
    case Deliver(content) =>
      w.(mail := w.mail[w.next := content], source := w.source[w.next := false], next := w.next + 1)
    case File(content) => w.(dest := w.dest + [content])
  }

  function OutsideSteps(w: World, os: seq<Outside>): (r: World)
    requires Valid(w)
    ensures Valid(r) && r.removed == w.removed
    decreases |os|
  {
    if os == [] then w else OutsideStep(OutsideSteps(w, os[..|os| - 1]), os[|os| - 1])
  }

  // ── what every step keeps ────────────────────────────────────────────

  ghost predicate SameMail(w0: World, w: World) {
    && Valid(w) && w0.dest <= w.dest && w0.next <= w.next
    && forall u | u in w0.mail :: u in w.mail && w.mail[u] == w0.mail[u]
  }

  /** Since `w0` this session removed at most `uid`. */
  ghost predicate OnlyUid(w0: World, w: World, uid: nat) { SameMail(w0, w) && w.removed <= w0.removed + {uid} }

  /** What this session removed is filed. */
  ghost predicate Filed(w0: World, w: World, uid: nat)
    requires Valid(w)
  {
    uid in w.removed - w0.removed ==> uid in w.mail && w.mail[uid] in w.dest
  }

  /** If the message is in the mailbox, its content is filed: from here on it may go. */
  ghost predicate MayGo(w: World, uid: nat)
    requires Valid(w)
  {
    uid in w.source ==> w.mail[uid] in w.dest
  }

  /** The content is filed, or the message is there and unflagged. */
  ghost predicate Kept(w: World, uid: nat)
    requires Valid(w)
  {
    uid in w.mail && (w.mail[uid] in w.dest || (uid in w.source && !w.source[uid]))
  }

  ghost predicate NeverFlags(os: seq<Outside>, uid: nat) { forall o | o in os :: o.Flag? && o.deleted ==> o.uid != uid }

  lemma {:induction false} OutsideStepsSafe(w0: World, w: World, os: seq<Outside>, uid: nat)
    requires SameMail(w0, w)
    ensures var w' := OutsideSteps(w, os);
            && SameMail(w0, w') && SameMail(w, w')
            && (Filed(w0, w, uid) ==> Filed(w0, w', uid))
            && (uid < w.next && MayGo(w, uid) ==> MayGo(w', uid))
    decreases |os|
  {
    if os != [] {
      OutsideStepsSafe(w0, w, os[..|os| - 1], uid);
    }
  }

  lemma {:induction false} OutsideStepsKeep(w: World, os: seq<Outside>, uid: nat)
    requires Valid(w) && Kept(w, uid) && NeverFlags(os, uid)
    ensures Kept(OutsideSteps(w, os), uid)
    decreases |os|
  {
    if os != [] {
      OutsideStepsKeep(w, os[..|os| - 1], uid);
    }
  }

  /** A command aimed at `uid` alone removes nothing else. */
  ghost predicate Aimed(w: World, c: Command, uid: nat) {
    if c.Expunge? then Flagged(w.source) <= {uid} else c.uid == uid
  }

  lemma IssuedSafe(w0: World, w: World, c: Command, fate: Fate, uid: nat)
    requires OnlyUid(w0, w, uid) && Aimed(w, c, uid)
    ensures OnlyUid(w0, Issued(w, c, fate), uid) && SameMail(w, Issued(w, c, fate))
  {
  }

  lemma IssuedFiles(w0: World, w: World, c: Command, fate: Fate, uid: nat)
    requires OnlyUid(w0, w, uid) && Aimed(w, c, uid) && Filed(w0, w, uid)
    requires c.UidExpunge? || c.Expunge? ==> MayGo(w, uid)
    ensures var w' := Issued(w, c, fate);
            Valid(w') && Filed(w0, w', uid) && ((c.Copy? && fate == Done) || MayGo(w, uid) ==> MayGo(w', uid))
  {
  }

  lemma IssuedKeeps(w: World, c: Command, fate: Fate, uid: nat)
    requires Valid(w) && Aimed(w, c, uid) && Kept(w, uid)
    requires c.UidExpunge? || c.Expunge? || c.Store? ==> MayGo(w, uid)
    ensures var w' := Issued(w, c, fate); Valid(w') && Kept(w', uid)
  {
  }

  // ── the client ───────────────────────────────────────────────────────

  datatype Caps = Caps(move: bool, uidPlus: bool)

  /** The n-th command of a call, with what happens before it. */
  function At(w: World, c: Command, script: Script, n: nat): World
    requires Valid(w)
  {
    Issued(OutsideSteps(w, script.outside(n)), c, script.fate(n))
  }

  lemma AtIsValid(w: World, c: Command, script: Script, n: nat)
    requires Valid(w)
    ensures Valid(At(w, c, script, n))
  {
  }

  function ExpungeRun(w: World, uid: nat, caps: Caps, script: Script, n: nat): (World, bool)
    requires Valid(w)
  {
    if caps.uidPlus then (At(w, UidExpunge(uid), script, n), script.fate(n) == Done)
    else
      var now := OutsideSteps(w, script.outside(n));
      if script.fate(n) != Done then (now, false)
      else if Flagged(now.source) == {uid} then (Issued(now, Expunge, script.fate(n + 1)), script.fate(n + 1) == Done)
      else (now, true)
  }

  function DeleteRun(w: World, uid: nat, caps: Caps, script: Script): (World, bool)
    requires Valid(w)
  {
    AtIsValid(w, Store(uid), script, 0);
    var w1 := At(w, Store(uid), script, 0);
    if script.fate(0) != Done then (w1, false) else ExpungeRun(w1, uid, caps, script, 1)
  }

  function MoveRun(w: World, uid: nat, caps: Caps, script: Script): (World, bool)
    requires Valid(w)
  {
    if caps.move then (At(w, Move(uid), script, 0), script.fate(0) == Done)
    else
      AtIsValid(w, Copy(uid), script, 0);
      var w1 := At(w, Copy(uid), script, 0);
      AtIsValid(w1, Store(uid), script, 1);
      var w2 := At(w1, Store(uid), script, 1);
      if script.fate(0) != Done then (w1, false)
      else if script.fate(1) != Done then (w2, false)
      else ExpungeRun(w2, uid, caps, script, 2)
  }

  class Session {
    const caps: Caps
    var world: World

    constructor (caps: Caps, world: World)
      requires Valid(world)
      ensures this.caps == caps && this.world == world
    {
      this.caps, this.world := caps, world;
    }

    method Issue(c: Command, script: Script, n: nat) returns (ok: bool)
      requires Valid(world)
      modifies this`world
      ensures Valid(world) && world == At(old(world), c, script, n) && ok == (script.fate(n) == Done)
    {
      world := OutsideSteps(world, script.outside(n));
      AtIsValid(world, c, Script(_ => [], script.fate), n);
      world := Issued(world, c, script.fate(n));
      ok := script.fate(n) == Done;
    }

    method SearchDeleted(script: Script, n: nat) returns (found: Option<set<nat>>)
      requires Valid(world)
      modifies this`world
      ensures Valid(world) && world == OutsideSteps(old(world), script.outside(n))
      ensures found == if script.fate(n) == Done then Some(Flagged(world.source)) else None
    {
      world := OutsideSteps(world, script.outside(n));
      found := if script.fate(n) == Done then Some(Flagged(world.source)) else None;
    }

    method ExpungeUidIfSafe(uid: nat, script: Script, n: nat) returns (ok: bool)
      requires Valid(world)
      modifies this`world
      ensures (world, ok) == ExpungeRun(old(world), uid, caps, script, n)
    {
      if caps.uidPlus {
        ok := Issue(UidExpunge(uid), script, n);
        return;
      }
      var found := SearchDeleted(script, n);
      if found.None? {
        return false;
      }
      OnlyOne(found.value, uid);
      if |found.value| == 1 && uid in found.value {
        world := Issued(world, Expunge, script.fate(n + 1));
        return script.fate(n + 1) == Done;
      }
      ok := true;
    }

    method DeleteUid(uid: nat, script: Script) returns (ok: bool)
      requires Valid(world)
      modifies this`world
      ensures (world, ok) == DeleteRun(old(world), uid, caps, script)
    {
      ok := Issue(Store(uid), script, 0);
      if ok {
        ok := ExpungeUidIfSafe(uid, script, 1);
      }
    }

    method MoveUid(uid: nat, script: Script) returns (ok: bool)
      requires Valid(world)
      modifies this`world
      ensures (world, ok) == MoveRun(old(world), uid, caps, script)
    {
      if caps.move {
        ok := Issue(Move(uid), script, 0);
        return;
      }
      ok := Issue(Copy(uid), script, 0);
      if ok {
        ok := Issue(Store(uid), script, 1);
        if ok {
          ok := ExpungeUidIfSafe(uid, script, 2);
        }
      }
    }
  }

  lemma OnlyOne(s: set<nat>, uid: nat)
    ensures |s| == 1 && uid in s <==> s == {uid}
  {
    if |s| == 1 && uid in s {
      assert |s - {uid}| == 0;
      assert s == (s - {uid}) + {uid};
    }
  }

  // ── safety of whole calls ────────────────────────────────────────────

  lemma AtSafe(w0: World, w: World, c: Command, script: Script, n: nat, uid: nat)
    requires OnlyUid(w0, w, uid) && !c.Expunge? && c.uid == uid
    ensures OnlyUid(w0, At(w, c, script, n), uid)
  {
    OutsideStepsSafe(w0, w, script.outside(n), uid);
    IssuedSafe(w0, OutsideSteps(w, script.outside(n)), c, script.fate(n), uid);
  }

  lemma AtFiles(w0: World, w: World, c: Command, script: Script, n: nat, uid: nat)
    requires OnlyUid(w0, w, uid) && !c.Expunge? && c.uid == uid && Filed(w0, w, uid) && uid < w.next
    requires c.UidExpunge? ==> MayGo(w, uid)
    ensures var w' := At(w, c, script, n);
            && Valid(w') && Filed(w0, w', uid)
            && ((c.Copy? && script.fate(n) == Done) || MayGo(w, uid) ==> MayGo(w', uid))
  {
    OutsideStepsSafe(w0, w, script.outside(n), uid);
    IssuedFiles(w0, OutsideSteps(w, script.outside(n)), c, script.fate(n), uid);
  }

  lemma AtKeeps(w: World, c: Command, script: Script, n: nat, uid: nat)
    requires Valid(w) && !c.Expunge? && c.uid == uid && uid < w.next && Kept(w, uid)
    requires NeverFlags(script.outside(n), uid)
    requires c.UidExpunge? || c.Store? ==> MayGo(w, uid)
    ensures Valid(At(w, c, script, n)) && Kept(At(w, c, script, n), uid)
  {
    OutsideStepsSafe(w, w, script.outside(n), uid);
    OutsideStepsKeep(w, script.outside(n), uid);
    IssuedKeeps(OutsideSteps(w, script.outside(n)), c, script.fate(n), uid);
  }

  lemma ExpungeSafe(w0: World, w: World, uid: nat, caps: Caps, script: Script, n: nat)
    requires OnlyUid(w0, w, uid)
    ensures OnlyUid(w0, ExpungeRun(w, uid, caps, script, n).0, uid)
  {
    if caps.uidPlus {
      AtSafe(w0, w, UidExpunge(uid), script, n, uid);
    } else {
      var now := OutsideSteps(w, script.outside(n));
      OutsideStepsSafe(w0, w, script.outside(n), uid);
      if Flagged(now.source) == {uid} {
        IssuedSafe(w0, now, Expunge, script.fate(n + 1), uid);
      }
    }
  }

  lemma ExpungeFiles(w0: World, w: World, uid: nat, caps: Caps, script: Script, n: nat)
    requires OnlyUid(w0, w, uid) && Filed(w0, w, uid) && uid < w.next && MayGo(w, uid)
    ensures Valid(ExpungeRun(w, uid, caps, script, n).0) && Filed(w0, ExpungeRun(w, uid, caps, script, n).0, uid)
  {
    if caps.uidPlus {
      AtFiles(w0, w, UidExpunge(uid), script, n, uid);
    } else {
      var now := OutsideSteps(w, script.outside(n));
      OutsideStepsSafe(w0, w, script.outside(n), uid);
      if Flagged(now.source) == {uid} {
        IssuedFiles(w0, now, Expunge, script.fate(n + 1), uid);
      }
    }
  }

  lemma ExpungeKeeps(w: World, uid: nat, caps: Caps, script: Script, n: nat)
    requires Valid(w) && uid < w.next && MayGo(w, uid) && Kept(w, uid)
    requires NeverFlags(script.outside(n), uid)
    ensures Valid(ExpungeRun(w, uid, caps, script, n).0) && Kept(ExpungeRun(w, uid, caps, script, n).0, uid)
  {
    if caps.uidPlus {
      AtKeeps(w, UidExpunge(uid), script, n, uid);
    } else {
      var now := OutsideSteps(w, script.outside(n));
      OutsideStepsSafe(w, w, script.outside(n), uid);
      OutsideStepsKeep(w, script.outside(n), uid);
      if Flagged(now.source) == {uid} {
        IssuedKeeps(now, Expunge, script.fate(n + 1), uid);
      }
    }
  }

  /** `delete_uid` removes no message but the given one, whatever fails. */
  lemma DeleteRemovesOnlyUid(w: World, uid: nat, caps: Caps, script: Script)
    requires Valid(w)
    ensures OnlyUid(w, DeleteRun(w, uid, caps, script).0, uid)
  {
    AtSafe(w, w, Store(uid), script, 0, uid);
    if script.fate(0) == Done {
      ExpungeSafe(w, At(w, Store(uid), script, 0), uid, caps, script, 1);
    }
  }

  /** `move_uid` removes no message but the given one, whatever fails. */
  lemma MoveRemovesOnlyUid(w: World, uid: nat, caps: Caps, script: Script)
    requires Valid(w)
    ensures OnlyUid(w, MoveRun(w, uid, caps, script).0, uid)
  {
    if caps.move {
      AtSafe(w, w, Move(uid), script, 0, uid);
    } else {
      AtSafe(w, w, Copy(uid), script, 0, uid);
      var w1 := At(w, Copy(uid), script, 0);
      AtSafe(w, w1, Store(uid), script, 1, uid);
      ExpungeSafe(w, At(w1, Store(uid), script, 1), uid, caps, script, 2);
    }
  }

  /** What `move_uid` itself removes is filed, for every UID already assigned. */
  lemma MoveFilesWhatItRemoves(w: World, uid: nat, caps: Caps, script: Script)
    requires Valid(w) && uid < w.next
    ensures Valid(MoveRun(w, uid, caps, script).0) && Filed(w, MoveRun(w, uid, caps, script).0, uid)
  {
    if caps.move {
      AtFiles(w, w, Move(uid), script, 0, uid);
    } else {
      AtSafe(w, w, Copy(uid), script, 0, uid);
      AtFiles(w, w, Copy(uid), script, 0, uid);
      if script.fate(0) == Done {
        var w1 := At(w, Copy(uid), script, 0);
        AtSafe(w, w1, Store(uid), script, 1, uid);
        AtFiles(w, w1, Store(uid), script, 1, uid);
        ExpungeFiles(w, At(w1, Store(uid), script, 1), uid, caps, script, 2);
      }
    }
  }

  /** `move_uid` never loses a message that no other session flags: it stays
      unflagged in the mailbox or is filed, even if others expunge what is flagged. */
  lemma MoveNeverLoses(w: World, uid: nat, caps: Caps, script: Script)
    requires Valid(w) && uid in w.source && !w.source[uid] && forall n :: NeverFlags(script.outside(n), uid)
    ensures Valid(MoveRun(w, uid, caps, script).0) && Kept(MoveRun(w, uid, caps, script).0, uid)
  {
    if caps.move {
      AtKeeps(w, Move(uid), script, 0, uid);
    } else {
      AtKeeps(w, Copy(uid), script, 0, uid);
      if script.fate(0) == Done {
        var w1 := At(w, Copy(uid), script, 0);
        AtSafe(w, w, Copy(uid), script, 0, uid);
        AtFiles(w, w, Copy(uid), script, 0, uid);
        AtKeeps(w1, Store(uid), script, 1, uid);
        AtSafe(w, w1, Store(uid), script, 1, uid);
        AtFiles(w, w1, Store(uid), script, 1, uid);
        ExpungeKeeps(At(w1, Store(uid), script, 1), uid, caps, script, 2);
      }
    }
  }

  // ── exact outcomes ───────────────────────────────────────────────────

  /** Nothing fails and nobody else acts. */
  ghost predicate Calm(script: Script) { forall n :: script.outside(n) == [] && script.fate(n) == Done }

  /** Whether a flagged message can be expunged at once. */
  predicate Expungeable(w: World, uid: nat, caps: Caps) { caps.uidPlus || Flagged(w.source) <= {uid} }

  lemma CalmExpunge(w: World, uid: nat, caps: Caps, script: Script, n: nat)
    requires Valid(w) && Calm(script) && (uid in w.source ==> w.source[uid])
    ensures ExpungeRun(w, uid, caps, script, n) == (if Expungeable(w, uid, caps) then Without(w, {uid}) else w, true)
  {
    assert script.outside(n) == [];
    assert script.fate(n) == Done && script.fate(n + 1) == Done;
    if uid in w.source {
      assert {uid} * Flagged(w.source) == {uid};
      assert Flagged(w.source) <= {uid} ==> Flagged(w.source) == {uid};
    } else {
      assert {uid} * Flagged(w.source) == {} && {uid} * w.source.Keys == {} && {} * w.source.Keys == {};
      assert w.source - {uid} == w.source == w.source - {} && w.removed + {} == w.removed;
    }
  }

  /** A calm delete removes the message, or only flags it when an EXPUNGE would take others. */
  lemma CalmDelete(w: World, uid: nat, caps: Caps, script: Script)
    requires Valid(w) && Calm(script)
    ensures DeleteRun(w, uid, caps, script) ==
            (if Expungeable(w, uid, caps) then Without(w, {uid}) else w.(source := WithFlag(w.source, uid, true)), true)
  {
    var w1 := w.(source := WithFlag(w.source, uid, true));
    assert script.outside(0) == [] && script.fate(0) == Done;
    assert At(w, Store(uid), script, 0) == w1;
    CalmExpunge(w1, uid, caps, script, 1);
    FlaggingChangesNothingElse(w, uid, caps);
  }

  lemma FlaggingChangesNothingElse(w: World, uid: nat, caps: Caps)
    ensures var w1 := w.(source := WithFlag(w.source, uid, true));
            Expungeable(w1, uid, caps) == Expungeable(w, uid, caps) && Without(w1, {uid}) == Without(w, {uid})
  {
    var source := WithFlag(w.source, uid, true);
    assert forall u | u != uid :: u in Flagged(source) <==> u in Flagged(w.source);
    assert source - {uid} == w.source - {uid};
  }

  /** A calm move files the message once and takes it out of the mailbox, or
      leaves it flagged when an EXPUNGE would take others. */
  lemma CalmMove(w: World, uid: nat, caps: Caps, script: Script)
    requires Valid(w) && Calm(script)
    ensures var copied := CopyOf(w, uid);
            MoveRun(w, uid, caps, script) ==
            (if caps.move || Expungeable(w, uid, caps) then Without(copied, {uid})
             else copied.(source := WithFlag(w.source, uid, true)), true)
  {
    assert script.outside(0) == [] && script.fate(0) == Done;
    assert script.outside(1) == [] && script.fate(1) == Done;
    if !caps.move {
      var w1 := At(w, Copy(uid), script, 0);
      var w2 := w1.(source := WithFlag(w.source, uid, true));
      assert w1 == CopyOf(w, uid);
      assert At(w1, Store(uid), script, 1) == w2;
      CalmExpunge(w2, uid, caps, script, 2);
      FlaggingChangesNothingElse(w1, uid, caps);
    }
  }

  // ── why the UID must be assigned ─────────────────────────────────────

  function Arrivals(k: nat, content: string): seq<Outside> { seq(k, _ => Deliver(content)) }

  lemma {:induction false} ArrivalsArrive(w: World, k: nat, content: string)
    requires Valid(w)
    ensures var w' := OutsideSteps(w, Arrivals(k, content));
            && w'.next == w.next + k && w'.dest == w.dest
            && forall u | w.next <= u < w.next + k :: u in w'.source && u in w'.mail && w'.mail[u] == content
  {
    if k > 0 {
      ArrivalsArrive(w, k - 1, content);
      assert Arrivals(k, content)[..k - 1] == Arrivals(k - 1, content);
    }
  }

  /** Flagged mail is purged before the COPY; mail arrives under the given UID
      after it and before the STORE. */
  function LateArrival(flagged: set<nat>, k: nat, content: string): Script {
    Script(n => if n == 0 then [Purge(flagged)] else if n == 1 then Arrivals(k, content) else [], n => Done)
  }

  function Purged(w: World): World { w.(source := w.source - Flagged(w.source)) }

  lemma PurgeStep(w: World)
    requires Valid(w)
    ensures Valid(Purged(w)) && OutsideSteps(w, [Purge(Flagged(w.source))]) == Purged(w)
    ensures Flagged(Purged(w).source) == {}
  {
    var o := Purge(Flagged(w.source));
    assert [o][..0] == [];
    assert OutsideSteps(w, []) == w;
    assert Flagged(w.source) * Flagged(w.source) == Flagged(w.source);
  }

  lemma {:induction false} ArrivalsUnflagged(w: World, k: nat, content: string)
    requires Valid(w) && Flagged(w.source) == {}
    ensures Flagged(OutsideSteps(w, Arrivals(k, content)).source) == {}
  {
    if k > 0 {
      ArrivalsUnflagged(w, k - 1, content);
      assert Arrivals(k, content)[..k - 1] == Arrivals(k - 1, content);
      ArrivesUnflagged(OutsideSteps(w, Arrivals(k - 1, content)), content);
    }
  }

  lemma ArrivesUnflagged(w: World, content: string)
    requires Valid(w) && Flagged(w.source) == {}
    ensures Flagged(OutsideStep(w, Deliver(content)).source) == {}
  {
    forall u | u in w.source
      ensures !w.source[u]
    {
      assert u !in Flagged(w.source);
    }
  }

  /** An only flagged message is expunged at once, with UIDPLUS or without. */
  lemma OnlyFlaggedGoes(w: World, uid: nat, caps: Caps, script: Script)
    requires Valid(w) && uid in w.source && Flagged(w.source) == {uid}
    requires script.outside(2) == [] && script.fate(2) == Done && script.fate(3) == Done
    ensures ExpungeRun(w, uid, caps, script, 2).0 == Without(w, {uid})
  {
    assert OutsideSteps(w, []) == w;
    assert {uid} * {uid} == {uid};
  }

  lemma OnlyOneFlagged(source: map<nat, bool>, uid: nat)
    requires uid in source && Flagged(source) == {}
    ensures Flagged(source[uid := true]) == {uid}
  {
    forall u | u in source
      ensures !source[u]
    {
      assert u !in Flagged(source);
    }
  }

  lemma NothingToCopy(w: World, uid: nat)
    requires Valid(w) && uid !in w.source
    ensures CopyOf(w, uid) == w
  {
    assert w.dest + [] == w.dest;
  }

  /** Where the late arrival stands before the expunge: flagged and not filed. */
  lemma LateArrivalFlagged(w: World, uid: nat, uidPlus: bool, content: string) returns (w2: World)
    requires Valid(w) && w.next <= uid
    ensures Valid(w2) && w2.dest == w.dest && w2.removed == w.removed
    ensures uid in w2.source && uid in w2.mail && w2.mail[uid] == content && Flagged(w2.source) == {uid}
    ensures var script := LateArrival(Flagged(w.source), uid - w.next + 1, content);
            MoveRun(w, uid, Caps(false, uidPlus), script) == ExpungeRun(w2, uid, Caps(false, uidPlus), script, 2)
  {
    var k := uid - w.next + 1;
    var script, w1 := LateArrival(Flagged(w.source), k, content), Purged(w);
    PurgeStep(w);
    NothingToCopy(w1, uid);
    assert At(w, Copy(uid), script, 0) == w1;
    ArrivalsArrive(w1, k, content);
    ArrivalsUnflagged(w1, k, content);
    var now := OutsideSteps(w1, Arrivals(k, content));
    w2 := now.(source := now.source[uid := true]);
    assert At(w1, Store(uid), script, 1) == w2;
    OnlyOneFlagged(now.source, uid);
  }

  lemma LateArrivalIsLost(w: World, uid: nat, uidPlus: bool, content: string)
    requires Valid(w) && w.next <= uid && uid !in w.removed && content !in w.dest
    ensures !MoveFiled(w, uid, Caps(false, uidPlus), LateArrival(Flagged(w.source), uid - w.next + 1, content))
  {
    var script := LateArrival(Flagged(w.source), uid - w.next + 1, content);
    var w2 := LateArrivalFlagged(w, uid, uidPlus, content);
    OnlyFlaggedGoes(w2, uid, Caps(false, uidPlus), script);
    assert uid in Without(w2, {uid}).removed;
  }

  /** With MOVE the copy and the removal are one command: it files what it removes, for every UID. */
  lemma MoveCommandFiles(w: World, uid: nat, uidPlus: bool, script: Script)
    requires Valid(w) && uid !in w.removed
    ensures MoveFiled(w, uid, Caps(true, uidPlus), script)
  {
    var now := OutsideSteps(w, script.outside(0));
    AtIsValid(w, Move(uid), script, 0);
    MoveFilesNow(now, uid, script.fate(0));
  }

  lemma MoveFilesNow(w: World, uid: nat, fate: Fate)
    requires Valid(w) && uid !in w.removed
    ensures var w' := Issued(w, Move(uid), fate); uid in w'.removed ==> uid in w'.mail && w'.mail[uid] in w'.dest
  {
    if uid in w.source {
      assert CopyOf(w, uid).dest[|w.dest|] == w.mail[uid];
    }
  }

  /** A move files whatever it removes under every script just when the server
      has MOVE or the UID was assigned before the call. */
  lemma MoveFilesIff(w: World, uid: nat, caps: Caps, content: string)
    requires Valid(w) && uid !in w.removed && content !in w.dest
    ensures (forall script :: MoveFiled(w, uid, caps, script)) <==> caps.move || uid < w.next
  {
    if caps.move || uid < w.next {
      forall script
        ensures MoveFiled(w, uid, caps, script)
      {
        if caps.move {
          MoveCommandFiles(w, uid, caps.uidPlus, script);
        } else {
          MoveFilesWhatItRemoves(w, uid, caps, script);
        }
      }
    } else {
      LateArrivalIsLost(w, uid, caps.uidPlus, content);
      assert !MoveFiled(w, uid, caps, LateArrival(Flagged(w.source), uid - w.next + 1, content));
    }
  }

  ghost predicate MoveFiled(w: World, uid: nat, caps: Caps, script: Script)
    requires Valid(w)
  {
    var w' := MoveRun(w, uid, caps, script).0; Valid(w') && Filed(w, w', uid)
  }

  // ── what success means ───────────────────────────────────────────────

  ghost predicate AllDone(script: Script, n: nat) { forall i | 0 <= i < n :: script.fate(i) == Done }

  /** A call succeeds only if every command did, and fails only if one failed. */
  lemma DeleteOkMeansDone(w: World, uid: nat, caps: Caps, script: Script)
    requires Valid(w)
    ensures var ok := DeleteRun(w, uid, caps, script).1; (ok ==> AllDone(script, 2)) && (AllDone(script, 3) ==> ok)
  {
  }

  lemma MoveOkMeansDone(w: World, uid: nat, caps: Caps, script: Script)
    requires Valid(w)
    ensures var ok := MoveRun(w, uid, caps, script).1;
            (ok ==> AllDone(script, if caps.move then 1 else 3)) && (AllDone(script, 4) ==> ok)
  {
  }

  lemma AtKeepsDest(w: World, c: Command, script: Script, n: nat)
    requires Valid(w)
    ensures w.dest <= At(w, c, script, n).dest
  {
    OutsideStepsSafe(w, w, script.outside(n), 0);
  }

  lemma ExpungeKeepsDest(w: World, uid: nat, caps: Caps, script: Script, n: nat)
    requires Valid(w)
    ensures w.dest <= ExpungeRun(w, uid, caps, script, n).0.dest
  {
    OutsideStepsSafe(w, w, script.outside(n), uid);
  }

  lemma FirstCommandFiles(w: World, uid: nat, c: Command, script: Script)
    requires Valid(w) && (c == Copy(uid) || c == Move(uid)) && script.fate(0) == Done
    requires uid in OutsideSteps(w, script.outside(0)).source
    ensures OutsideSteps(w, script.outside(0)).mail[uid] in At(w, c, script, 0).dest
  {
  }

  /** A move that succeeds has filed the message, if it was there when the first
      command was given. */
  lemma MoveOkMeansFiled(w: World, uid: nat, caps: Caps, script: Script)
    requires Valid(w) && uid in OutsideSteps(w, script.outside(0)).source && MoveRun(w, uid, caps, script).1
    ensures OutsideSteps(w, script.outside(0)).mail[uid] in MoveRun(w, uid, caps, script).0.dest
  {
    MoveOkMeansDone(w, uid, caps, script);
    assert script.fate(0) == Done;
    if caps.move {
      FirstCommandFiles(w, uid, Move(uid), script);
    } else {
      FirstCommandFiles(w, uid, Copy(uid), script);
      AtIsValid(w, Copy(uid), script, 0);
      RestKeepsDest(At(w, Copy(uid), script, 0), uid, caps, script);
    }
  }

  lemma RestKeepsDest(w1: World, uid: nat, caps: Caps, script: Script)
    requires Valid(w1)
    ensures Valid(At(w1, Store(uid), script, 1))
    ensures w1.dest <= ExpungeRun(At(w1, Store(uid), script, 1), uid, caps, script, 2).0.dest
  {
    AtIsValid(w1, Store(uid), script, 1);
    AtKeepsDest(w1, Store(uid), script, 1);
    ExpungeKeepsDest(At(w1, Store(uid), script, 1), uid, caps, script, 2);
  }
}
