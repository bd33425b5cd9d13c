/**
 The key hierarchy of session snapshots, with AES-GCM (NIST SP 800-38D) as an
 ideal authenticated cipher: a box opens for exactly the key and the additional
 data it was made with. Keys are drawn fresh, so a key is named after the session
 or the snapshot it was drawn for.
 */
module SnapshotCrypto {
  import opened Basics

  type SessionId = nat
  type SnapshotId = nat

  /** The two artifacts of a snapshot. */
  datatype Name = StateFile | MemoryFile

  datatype Key = Root | Kek(session: SessionId) | Dek(snapshot: SnapshotId)

  datatype Plain = KeyBytes(key: Key) | Image(snapshot: SnapshotId, name: Name)

  datatype Aad = SessionKekAad | SnapshotDekAad | ArtifactAad(session: SessionId, snapshot: SnapshotId, name: Name)

  datatype Box = Box(plain: Plain, under: Key, aad: Aad)

  function Open(box: Box, key: Key, aad: Aad): (r: Option<Plain>) {
    if box.under == key && box.aad == aad then Some(box.plain) else None
  }

  /** `unwrap`: opens a wrapped key. */
  function Unwrap(box: Box, key: Key, aad: Aad): (r: Option<Key>) {
    match Open(box, key, aad)
    case Some(KeyBytes(k)) => Some(k)
    case _ => None
  }

  /** A session KEK wrapped by the root KEK. */
  function WrappedSessionKek(s: SessionId): (box: Box) {
    Box(KeyBytes(Kek(s)), Root, SessionKekAad)
  }

  /** A fresh DEK wrapped by the session KEK that `kek` wraps. */
  function WrappedSnapshotDek(kek: Box, x: SnapshotId): (r: Option<Box>) {
    match Unwrap(kek, Root, SessionKekAad)
    case Some(k) => Some(Box(KeyBytes(Dek(x)), k, SnapshotDekAad))
    case None => None
  }

  function UnwrapDek(kek: Box, dek: Box): (r: Option<Key>) {
    match Unwrap(kek, Root, SessionKekAad)
    case Some(k) => Unwrap(dek, k, SnapshotDekAad)
    case None => None
  }

  function Encrypt(plain: Plain, kek: Box, dek: Box, aad: Aad): (r: Option<Box>) {
    match UnwrapDek(kek, dek)
    case Some(k) => Some(Box(plain, k, aad))
    case None => None
  }

  function Decrypt(box: Box, kek: Box, dek: Box, aad: Aad): (r: Option<Plain>) {
    match UnwrapDek(kek, dek)
    case Some(k) => Open(box, k, aad)
    case None => None
  }

  /**
   What the hierarchy encrypts for an artifact of a snapshot it decrypts again
   with the same wrapped keys and the same additional data, and with nothing else:
   not under another session's KEK, another snapshot's DEK or another artifact's
   additional data.
   */
  lemma DecryptsExactlyItsOwn(s: SessionId, x: SnapshotId, n: Name, s': SessionId, x': SnapshotId, aad: Aad)
    ensures var kek, kek' := WrappedSessionKek(s), WrappedSessionKek(s');
      var dek, dek' := WrappedSnapshotDek(kek, x), WrappedSnapshotDek(kek', x');
      && dek.Some? && dek'.Some?
      && var box := Encrypt(Image(x, n), kek, dek.value, ArtifactAad(s, x, n));
         && box.Some?
         && (Decrypt(box.value, kek', dek'.value, aad) == Some(Image(x, n))
             <==> x' == x && aad == ArtifactAad(s, x, n))
         && (Decrypt(box.value, kek', dek.value, aad) == Some(Image(x, n))
             <==> s' == s && aad == ArtifactAad(s, x, n))
  {
    assert WrappedSnapshotDek(WrappedSessionKek(s), x) == Some(Box(KeyBytes(Dek(x)), Kek(s), SnapshotDekAad));
    assert WrappedSnapshotDek(WrappedSessionKek(s'), x') == Some(Box(KeyBytes(Dek(x')), Kek(s'), SnapshotDekAad));
  }

  // ---------------------------------------------------------------------------
  // The additional data as text

  /** `aadFor`. */
  function AadText(session: string, snapshot: string, name: string): (r: string) {
    "caisson/session-snapshot/" + session + "/" + snapshot + "/" + name
  }

  predicate NoSlash(s: string) {
    '/' !in s
  }

  /** A slash-free prefix ends where the first slash is. */
  lemma {:induction false} FirstSlash(a: string, b: string, rest: string, rest': string)
    requires NoSlash(a) && NoSlash(b) && a + "/" + rest == b + "/" + rest'
    ensures a == b && rest == rest'
  {
    var whole := a + "/" + rest;
    assert a != [] ==> whole[0] == a[0] && a[0] in a;
    assert b != [] ==> whole[0] == b[0] && b[0] in b;
    assert a == [] ==> whole[0] == '/';
    if a == [] {
      assert whole[1..] == rest && whole[1..] == rest';
    } else {
      assert whole[1..] == a[1..] + "/" + rest;
      assert whole[1..] == b[1..] + "/" + rest';
      FirstSlash(a[1..], b[1..], rest, rest');
    }
  }

  /** Ids without a slash, such as UUIDs, give every artifact its own additional data. */
  lemma AadTextIsInjective(s: string, x: string, n: string, s': string, x': string, n': string)
    requires NoSlash(s) && NoSlash(x) && NoSlash(s') && NoSlash(x')
    requires AadText(s, x, n) == AadText(s', x', n')
    ensures s == s' && x == x' && n == n'
  {
    var lead := "caisson/session-snapshot/";
    var t, t' := s + "/" + (x + "/" + n), s' + "/" + (x' + "/" + n');
    assert AadText(s, x, n) == lead + t && AadText(s', x', n') == lead + t';
    assert (lead + t)[|lead|..] == t && (lead + t')[|lead|..] == t';
    FirstSlash(s, s', x + "/" + n, x' + "/" + n');
    FirstSlash(x, x', n, n');
  }
}

/**
 Persistence and erasure of session snapshots: the key and snapshot tables, the
 deletion outbox, the object store, captures in flight and deletion workers, each
 table transaction being one step. Physical deletion reads the manifest, deletes
 the artifacts it lists one by one and the manifest last, and may be cut short and
 retried, by several workers at once.
 */
module SnapshotErasure {
  import opened Basics
  import opened SnapshotCrypto
  import Runs

  type WorkerId = nat

  datatype Deletion = Active | CryptoErased | PhysicallyDeleted

  datatype Row = Row(session: SessionId, state: Deletion)

  datatype Object = Artifact(snapshot: SnapshotId, name: Name, box: Box) | Manifest(snapshot: SnapshotId)

  datatype Stage = Uploading | Published

  /** How a transaction ends for its client. */
  datatype Ending = Committed | RolledBack | Ambiguous

  /** A capture holding its wrapped keys in memory. */
  datatype Flight = Flight(session: SessionId, kek: Box, dek: Box, uploaded: set<Name>, stage: Stage)

  /** A deletion working through the manifest it has read, for a deletion-outbox row or for a capture whose commit failed. */
  datatype Worker = Worker(snapshot: SnapshotId, left: seq<Name>, gone: bool, forOutbox: bool)

  /**
   `provisioned` and `used` are the session and snapshot ids that have been issued,
   `published` the snapshots whose manifest has been put in the store, `doubts` the
   snapshots whose commit reported an error, with whether the deletion their capture
   then attempts is still to come.
   */
  datatype State = State(provisioned: set<SessionId>, used: set<SnapshotId>, published: set<SnapshotId>,
                         sessionKeys: map<SessionId, Box>, snapshotKeys: map<SnapshotId, Box>,
                         rows: map<SnapshotId, Row>, outbox: map<SnapshotId, bool>,
                         objects: set<Object>, flights: map<SnapshotId, Flight>, workers: map<WorkerId, Worker>,
                         doubts: map<SnapshotId, bool>)

  const INITIAL: State := State({}, {}, {}, map[], map[], map[], map[], {}, map[], map[], map[])

  datatype Label =
    | Provision(s: SessionId)
    | BeginCapture(s: SessionId, x: SnapshotId)
    | Upload(x: SnapshotId, n: Name)
    | PutManifest(x: SnapshotId)
    | Commit(x: SnapshotId, ending: Ending)
    | Abort(x: SnapshotId)
    | EraseSnapshot(x: SnapshotId)
    | EraseSession(s: SessionId)
    | ReadManifest(w: WorkerId, x: SnapshotId, forOutbox: bool)
    | DeleteArtifact(w: WorkerId)
    | DeleteManifest(w: WorkerId)
    | Complete(w: WorkerId)
    | MarkPhysical(w: WorkerId)
    | WorkerDies(w: WorkerId)

  predicate Enabled(s: State, l: Label) {
    match l
    case Provision(i) => i !in s.provisioned
    case BeginCapture(i, x) => i in s.sessionKeys && x !in s.used && WrappedSnapshotDek(s.sessionKeys[i], x).Some?
    case Upload(x, n) =>
      x in s.flights && s.flights[x].stage.Uploading?
      && Encrypt(Image(x, n), s.flights[x].kek, s.flights[x].dek, ArtifactAad(s.flights[x].session, x, n)).Some?
    case PutManifest(x) => x in s.flights && s.flights[x].stage.Uploading? && s.flights[x].uploaded == {StateFile, MemoryFile}
    case Commit(x, _) => x in s.flights && s.flights[x].stage.Published?
    case Abort(x) => x in s.flights
    case EraseSnapshot(x) => x in s.rows
    case EraseSession(i) => true
    case ReadManifest(w, x, forOutbox) =>
      w !in s.workers && Manifest(x) in s.objects
      && (if forOutbox then x in s.outbox && !s.outbox[x] else x in s.doubts && s.doubts[x])
    case DeleteArtifact(w) => w in s.workers && s.workers[w].left != []
    case DeleteManifest(w) => w in s.workers && s.workers[w].left == [] && !s.workers[w].gone
    case Complete(w) => w in s.workers && s.workers[w].gone && s.workers[w].forOutbox && s.workers[w].snapshot in s.outbox
    case MarkPhysical(w) =>
      w in s.workers && s.workers[w].gone && s.workers[w].forOutbox && s.workers[w].snapshot in s.rows
      && s.workers[w].snapshot in s.outbox && s.outbox[s.workers[w].snapshot]
    case WorkerDies(w) => w in s.workers
  }

  function Erased(r: Row): (e: Row) {
    if r.state.Active? then r.(state := CryptoErased) else r
  }

  /** `INSERT ... ON CONFLICT DO NOTHING`. */
  function Queued(outbox: map<SnapshotId, bool>, xs: set<SnapshotId>): (r: map<SnapshotId, bool>) {
    map x | x in outbox.Keys + xs :: if x in outbox then outbox[x] else false
  }

  /** The active snapshots of a session. */
  function ActiveOf(rows: map<SnapshotId, Row>, i: SessionId): (xs: set<SnapshotId>) {
    set x | x in rows && rows[x].session == i && rows[x].state.Active?
  }

  function SessionErased(rows: map<SnapshotId, Row>, i: SessionId): (r: map<SnapshotId, Row>) {
    map x | x in rows :: if rows[x].session == i then Erased(rows[x]) else rows[x]
  }

  function Deleted(objects: set<Object>, x: SnapshotId, n: Name): (r: set<Object>) {
    set o | o in objects && !(o.Artifact? && o.snapshot == x && o.name == n)
  }

  /** The capture's transaction: row and wrapped DEK together, or neither; an error makes the capture delete its objects. */
  function Settled(s: State, x: SnapshotId, ending: Ending): State
    requires x in s.flights
  {
    var f := s.flights[x];
    var t := s.(flights := s.flights - {x}, doubts := if ending.Committed? then s.doubts else s.doubts[x := true]);
    if ending.RolledBack? then t
    else t.(rows := s.rows[x := Row(f.session, Active)], snapshotKeys := s.snapshotKeys[x := f.dek])
  }

  function Next(s: State, l: Label): (r: State) {
    if !Enabled(s, l) then s else
    match l
    case Provision(i) =>
      s.(provisioned := s.provisioned + {i}, sessionKeys := s.sessionKeys[i := WrappedSessionKek(i)])
    case BeginCapture(i, x) =>
      var kek := s.sessionKeys[i];
      s.(used := s.used + {x},
         flights := s.flights[x := Flight(i, kek, WrappedSnapshotDek(kek, x).value, {}, Uploading)])
    case Upload(x, n) =>
      var f := s.flights[x];
      var box := Encrypt(Image(x, n), f.kek, f.dek, ArtifactAad(f.session, x, n)).value;
      s.(objects := s.objects + {Artifact(x, n, box)}, flights := s.flights[x := f.(uploaded := f.uploaded + {n})])
    case PutManifest(x) =>
      s.(objects := s.objects + {Manifest(x)}, published := s.published + {x}, flights := s.flights[x := s.flights[x].(stage := Published)])
    case Commit(x, ending) => Settled(s, x, ending)
    case Abort(x) => s.(flights := s.flights - {x})
    case EraseSnapshot(x) =>
      s.(snapshotKeys := s.snapshotKeys - {x}, rows := s.rows[x := Erased(s.rows[x])], outbox := Queued(s.outbox, {x}))
    case EraseSession(i) =>
      s.(sessionKeys := s.sessionKeys - {i},
         rows := SessionErased(s.rows, i),
         outbox := Queued(s.outbox, ActiveOf(s.rows, i)))
    case ReadManifest(w, x, forOutbox) =>
      s.(workers := s.workers[w := Worker(x, [StateFile, MemoryFile], false, forOutbox)],
         doubts := if forOutbox then s.doubts else s.doubts[x := false])
    case DeleteArtifact(w) =>
      var k := s.workers[w];
      s.(objects := Deleted(s.objects, k.snapshot, k.left[0]),
         workers := s.workers[w := k.(left := k.left[1..])])
    case DeleteManifest(w) =>
      var k := s.workers[w];
      s.(objects := s.objects - {Manifest(k.snapshot)}, workers := s.workers[w := k.(gone := true)])
    case Complete(w) => s.(outbox := s.outbox[s.workers[w].snapshot := true])
    case MarkPhysical(w) =>
      var x := s.workers[w].snapshot;
      s.(rows := s.rows[x := s.rows[x].(state := PhysicallyDeleted)])
    case WorkerDies(w) => s.(workers := s.workers - {w})
  }

  ghost function After(ls: seq<Label>): (s: State) {
    Runs.Exec(Next, INITIAL, ls)
  }

  // ---------------------------------------------------------------------------
  // What someone with the root key, the database and the object store can read

  ghost function Boxes(s: State): (r: set<Box>) {
    s.sessionKeys.Values + s.snapshotKeys.Values + (set o | o in s.objects && o.Artifact? :: o.box)
  }

  /** The key is reachable from the root key by opening at most `depth` boxes. */
  ghost predicate KnownAt(boxes: set<Box>, k: Key, depth: nat)
    decreases depth
  {
    k.Root? || (depth > 0 && exists b :: b in boxes && b.plain == KeyBytes(k) && KnownAt(boxes, b.under, depth - 1))
  }

  ghost predicate Known(boxes: set<Box>, k: Key) {
    exists depth: nat :: KnownAt(boxes, k, depth)
  }

  /** A chain of boxes leads from the root key to the plaintext of the artifact. */
  ghost predicate Readable(s: State, x: SnapshotId, n: Name) {
    exists b :: b in Boxes(s) && b.plain == Image(x, n) && Known(Boxes(s), b.under)
  }

  // ---------------------------------------------------------------------------
  // The invariant

  ghost predicate KeysInv(s: State) {
    && (forall i :: i in s.sessionKeys ==> s.sessionKeys[i] == WrappedSessionKek(i) && i in s.provisioned)
    && (forall x :: x in s.snapshotKeys ==>
          x in s.rows && s.snapshotKeys[x] == Box(KeyBytes(Dek(x)), Kek(s.rows[x].session), SnapshotDekAad))
    && (forall x :: x in s.rows ==> x in s.used && x !in s.flights && s.rows[x].session in s.provisioned)
    && (forall x :: x in s.flights ==>
          && x in s.used && s.flights[x].session in s.provisioned
          && s.flights[x].kek == WrappedSessionKek(s.flights[x].session)
          && s.flights[x].dek == Box(KeyBytes(Dek(x)), Kek(s.flights[x].session), SnapshotDekAad))
  }

  /** A snapshot that left `active`, or is queued for deletion, has lost a link of its key chain. */
  ghost predicate ErasureInv(s: State) {
    && (forall x :: x in s.rows && !s.rows[x].state.Active? ==>
          x !in s.snapshotKeys || s.rows[x].session !in s.sessionKeys)
    && (forall x :: x in s.outbox ==> x in s.rows && !s.rows[x].state.Active?)
  }

  ghost predicate ArtifactsInv(s: State) {
    forall o :: o in s.objects ==>
      && o.snapshot in s.used
      && (o.Artifact? ==> o.box.plain == Image(o.snapshot, o.name) && o.box.under == Dek(o.snapshot))
  }

  /** Artifacts are bound to the session, snapshot and name they were uploaded for. */
  ghost predicate BindingInv(s: State) {
    forall o :: o in s.objects && o.Artifact? ==>
      && (o.snapshot in s.rows ==> o.box.aad == ArtifactAad(s.rows[o.snapshot].session, o.snapshot, o.name))
      && (o.snapshot in s.flights ==> o.box.aad == ArtifactAad(s.flights[o.snapshot].session, o.snapshot, o.name))
  }

  ghost predicate Inv(s: State) {
    KeysInv(s) && ErasureInv(s) && ArtifactsInv(s) && BindingInv(s)
  }

  /** Captures: ids are fresh, and a flight's DEK becomes its row's DEK. */
  lemma BeginKeepsKeys(s: State, i: SessionId, x: SnapshotId)
    requires KeysInv(s)
    ensures KeysInv(Next(s, BeginCapture(i, x)))
  {
  }

  lemma CommitKeepsKeys(s: State, x: SnapshotId, ending: Ending)
    requires KeysInv(s)
    ensures KeysInv(Next(s, Commit(x, ending)))
  {
  }

  lemma FlightKeepsKeys(s: State, l: Label)
    requires KeysInv(s) && (l.Upload? || l.PutManifest? || l.Abort?)
    ensures KeysInv(Next(s, l))
  {
  }

  lemma TablesKeepKeys(s: State, l: Label)
    requires KeysInv(s) && (l.Provision? || l.EraseSnapshot? || l.EraseSession?)
    ensures KeysInv(Next(s, l))
  {
  }

  lemma KeysKeep(s: State, l: Label)
    requires KeysInv(s)
    ensures KeysInv(Next(s, l))
  {
    if l.BeginCapture? {
      BeginKeepsKeys(s, l.s, l.x);
    } else if l.Commit? {
      CommitKeepsKeys(s, l.x, l.ending);
    } else if l.Upload? || l.PutManifest? || l.Abort? {
      FlightKeepsKeys(s, l);
    } else if l.Provision? || l.EraseSnapshot? || l.EraseSession? {
      TablesKeepKeys(s, l);
    } else {
      assert Next(s, l).sessionKeys == s.sessionKeys && Next(s, l).snapshotKeys == s.snapshotKeys;
      assert Next(s, l).flights == s.flights && Next(s, l).rows.Keys == s.rows.Keys;
    }
  }

  /** The labels that write the key, snapshot or deletion tables. */
  predicate WritesTables(l: Label) {
    l.Provision? || l.Commit? || l.EraseSnapshot? || l.EraseSession? || l.Complete? || l.MarkPhysical?
  }

  lemma TablesSame(s: State, l: Label)
    requires !WritesTables(l)
    ensures var t := Next(s, l);
      t.rows == s.rows && t.sessionKeys == s.sessionKeys && t.snapshotKeys == s.snapshotKeys && t.outbox == s.outbox
  {
  }

  lemma ErasingKeepsErasure(s: State, l: Label)
    requires KeysInv(s) && ErasureInv(s) && (l.EraseSnapshot? || l.EraseSession?)
    ensures ErasureInv(Next(s, l))
  {
  }

  lemma CommitKeepsErasure(s: State, x: SnapshotId, ending: Ending)
    requires KeysInv(s) && ErasureInv(s)
    ensures ErasureInv(Next(s, Commit(x, ending)))
  {
  }

  lemma ErasureKeeps(s: State, l: Label)
    requires KeysInv(s) && ErasureInv(s)
    ensures ErasureInv(Next(s, l))
  {
    if l.EraseSnapshot? || l.EraseSession? {
      ErasingKeepsErasure(s, l);
    } else if l.Commit? {
      CommitKeepsErasure(s, l.x, l.ending);
    } else if WritesTables(l) {
      BookkeepingKeepsErasure(s, l);
    } else {
      TablesSame(s, l);
    }
  }

  lemma ProvisionKeepsErasure(s: State, i: SessionId)
    requires KeysInv(s) && ErasureInv(s)
    ensures ErasureInv(Next(s, Provision(i)))
  {
    assert forall x :: x in s.rows ==> s.rows[x].session in s.provisioned;
  }

  lemma BookkeepingKeepsErasure(s: State, l: Label)
    requires KeysInv(s) && ErasureInv(s) && (l.Provision? || l.Complete? || l.MarkPhysical?)
    ensures ErasureInv(Next(s, l))
  {
    if l.Provision? {
      ProvisionKeepsErasure(s, l.s);
    } else {
      var t := Next(s, l);
      assert t.outbox.Keys == s.outbox.Keys && t.rows.Keys == s.rows.Keys;
      assert t.snapshotKeys == s.snapshotKeys && t.sessionKeys == s.sessionKeys;
    }
  }

  /** The labels that write or delete objects. */
  predicate MovesObjects(l: Label) {
    l.Upload? || l.PutManifest? || l.DeleteArtifact? || l.DeleteManifest?
  }

  lemma ObjectsSame(s: State, l: Label)
    requires !MovesObjects(l)
    ensures Next(s, l).objects == s.objects
  {
  }

  lemma IdsStayUsed(s: State, l: Label)
    ensures s.used <= Next(s, l).used
  {
  }

  lemma UploadKeepsArtifacts(s: State, x: SnapshotId, n: Name)
    requires KeysInv(s) && ArtifactsInv(s)
    ensures ArtifactsInv(Next(s, Upload(x, n)))
  {
  }

  lemma ObjectsKeepArtifacts(s: State, l: Label)
    requires KeysInv(s) && ArtifactsInv(s) && (l.PutManifest? || l.DeleteArtifact? || l.DeleteManifest?)
    ensures ArtifactsInv(Next(s, l))
  {
  }

  lemma ArtifactsKeep(s: State, l: Label)
    requires KeysInv(s) && ArtifactsInv(s)
    ensures ArtifactsInv(Next(s, l))
  {
    if l.Upload? {
      UploadKeepsArtifacts(s, l.x, l.n);
    } else if MovesObjects(l) {
      ObjectsKeepArtifacts(s, l);
    } else {
      ObjectsSame(s, l);
      IdsStayUsed(s, l);
    }
  }

  lemma BindingKeeps(s: State, l: Label)
    requires KeysInv(s) && ArtifactsInv(s) && BindingInv(s)
    ensures BindingInv(Next(s, l))
  {
    var t := Next(s, l);
    forall o | o in t.objects && o.Artifact? && o in s.objects
      ensures o.snapshot in t.rows ==> o.box.aad == ArtifactAad(t.rows[o.snapshot].session, o.snapshot, o.name)
      ensures o.snapshot in t.flights ==> o.box.aad == ArtifactAad(t.flights[o.snapshot].session, o.snapshot, o.name)
    {
      SessionsStay(s, l, o.snapshot);
    }
  }

  /** A snapshot belongs to one session, from its capture on. */
  lemma SessionsStay(s: State, l: Label, x: SnapshotId)
    requires KeysInv(s) && x in s.used
    ensures var t := Next(s, l);
      && (x in t.flights ==> x in s.flights && t.flights[x].session == s.flights[x].session)
      && (x in t.rows ==> (x in s.rows && t.rows[x].session == s.rows[x].session)
                          || (x in s.flights && t.rows[x].session == s.flights[x].session))
  {
    FlightsStay(s, l, x);
    if !WritesTables(l) {
      TablesSame(s, l);
    }
  }

  lemma FlightsStay(s: State, l: Label, x: SnapshotId)
    requires KeysInv(s) && x in s.used
    ensures x in Next(s, l).flights ==> x in s.flights && Next(s, l).flights[x].session == s.flights[x].session
  {
    if l.BeginCapture? {
      BeginStays(s, l.s, l.x, x);
    } else if !MovesFlight(l) {
      FlightsSame(s, l);
    }
  }

  lemma BeginStays(s: State, i: SessionId, x: SnapshotId, y: SnapshotId)
    requires y in s.used
    ensures var t := Next(s, BeginCapture(i, x));
      y in t.flights ==> y in s.flights && t.flights[y].session == s.flights[y].session
  {
  }

  predicate MovesFlight(l: Label) {
    l.BeginCapture? || l.Upload? || l.PutManifest? || l.Commit? || l.Abort?
  }

  lemma FlightsSame(s: State, l: Label)
    requires !MovesFlight(l)
    ensures Next(s, l).flights == s.flights
  {
  }

  lemma InvKeeps(s: State, l: Label)
    requires Inv(s)
    ensures Inv(Next(s, l))
  {
    KeysKeep(s, l);
    ErasureKeeps(s, l);
    ArtifactsKeep(s, l);
    BindingKeeps(s, l);
  }

  lemma InvAlongRuns(ls: seq<Label>)
    ensures Inv(After(ls))
  {
    forall s: State, l: Label | Inv(s) ensures Inv(Next(s, l)) {
      InvKeeps(s, l);
    }
    Runs.InvariantHolds(Next, (s: State) => Inv(s), INITIAL, ls);
  }

  // ---------------------------------------------------------------------------
  // Readability is exactly the presence of both wrapped keys and the artifact

  ghost predicate HasArtifact(s: State, x: SnapshotId, n: Name) {
    exists o :: o in s.objects && o.Artifact? && o.snapshot == x && o.name == n
  }

  /** Both links of the chain to the snapshot's DEK are in the database. */
  ghost predicate HasKeys(s: State, x: SnapshotId) {
    x in s.rows && x in s.snapshotKeys && s.rows[x].session in s.sessionKeys
  }

  lemma {:induction false} KnownKeys(s: State, k: Key, depth: nat)
    requires Inv(s) && KnownAt(Boxes(s), k, depth)
    ensures match k
      case Root => true
      case Kek(i) => i in s.sessionKeys
      case Dek(x) => HasKeys(s, x)
    decreases depth
  {
    if !k.Root? {
      var b :| b in Boxes(s) && b.plain == KeyBytes(k) && KnownAt(Boxes(s), b.under, depth - 1);
      KnownKeys(s, b.under, depth - 1);
      if b in s.sessionKeys.Values {
        var i :| i in s.sessionKeys && s.sessionKeys[i] == b;
      } else if b in s.snapshotKeys.Values {
        var x :| x in s.snapshotKeys && s.snapshotKeys[x] == b;
      }
    }
  }

  lemma DekIsKnown(s: State, x: SnapshotId)
    requires Inv(s) && HasKeys(s, x)
    ensures Known(Boxes(s), Dek(x))
  {
    var i := s.rows[x].session;
    var kek, dek := s.sessionKeys[i], s.snapshotKeys[x];
    assert kek in Boxes(s) && dek in Boxes(s);
    assert KnownAt(Boxes(s), Root, 0);
    assert KnownAt(Boxes(s), Kek(i), 1) by { assert kek.plain == KeyBytes(Kek(i)); }
    assert KnownAt(Boxes(s), Dek(x), 2) by { assert dek.plain == KeyBytes(Dek(x)); }
  }

  lemma ReadableExactlyWithKeys(s: State, x: SnapshotId, n: Name)
    requires Inv(s)
    ensures Readable(s, x, n) <==> HasArtifact(s, x, n) && HasKeys(s, x)
  {
    if Readable(s, x, n) {
      var b :| b in Boxes(s) && b.plain == Image(x, n) && Known(Boxes(s), b.under);
      var o :| o in s.objects && o.Artifact? && o.box == b;
      var depth: nat :| KnownAt(Boxes(s), b.under, depth);
      KnownKeys(s, b.under, depth);
      assert o.snapshot == x && o.name == n;
    }
    if HasArtifact(s, x, n) && HasKeys(s, x) {
      var o :| o in s.objects && o.Artifact? && o.snapshot == x && o.name == n;
      DekIsKnown(s, x);
      assert o.box in Boxes(s);
    }
  }

  // ---------------------------------------------------------------------------
  // Erasure

  /**
   After any run of provisioning, captures, pruning, session erasure and physical
   deletion, no key chain leads to the plaintext of a snapshot that is no longer
   active or is queued for deletion, whatever objects are still in the store.
   */
  lemma ErasedIsUnreadable(ls: seq<Label>, x: SnapshotId, n: Name)
    requires var s := After(ls); (x in s.rows && !s.rows[x].state.Active?) || x in s.outbox
    ensures !Readable(After(ls), x, n)
  {
    InvAlongRuns(ls);
    ReadableExactlyWithKeys(After(ls), x, n);
  }

  /** What `restore` computes for an artifact from the two key tables. */
  ghost function Restored(s: State, o: Object): (r: Option<Plain>)
    requires o.Artifact? && o.snapshot in s.rows
  {
    var i, x := s.rows[o.snapshot].session, o.snapshot;
    if i in s.sessionKeys && x in s.snapshotKeys
    then Decrypt(o.box, s.sessionKeys[i], s.snapshotKeys[x], ArtifactAad(i, x, o.name)) else None
  }

  /**
   On every run, restoring a stored artifact of a committed snapshot yields exactly
   the image that was captured if both wrapped keys are still in the database, and
   nothing otherwise.
   */
  lemma RestoreYieldsTheImage(ls: seq<Label>, o: Object)
    requires o in After(ls).objects && o.Artifact? && o.snapshot in After(ls).rows
    ensures Restored(After(ls), o)
         == if HasKeys(After(ls), o.snapshot) then Some(Image(o.snapshot, o.name)) else None
  {
    InvAlongRuns(ls);
    var s := After(ls);
    assert ArtifactsInv(s) && BindingInv(s) && KeysInv(s);
  }

  lemma NothingComesBack(s: State, l: Label, x: SnapshotId, n: Name)
    requires Inv(s) && x in s.rows
    ensures x in Next(s, l).rows
    ensures HasKeys(Next(s, l), x) ==> HasKeys(s, x)
    ensures HasArtifact(Next(s, l), x, n) ==> HasArtifact(s, x, n)
  {
    if !WritesTables(l) {
      TablesSame(s, l);
    }
    NoNewObject(s, l, x);
  }

  lemma NoNewObject(s: State, l: Label, x: SnapshotId)
    requires KeysInv(s) && x !in s.flights
    ensures forall o :: o in Next(s, l).objects && o.snapshot == x ==> o in s.objects
  {
    if !MovesObjects(l) {
      ObjectsSame(s, l);
    }
  }

  /** A committed snapshot that cannot be read any more can never be read again. */
  lemma {:induction false} LostReadabilityNeverReturns(s: State, ls: seq<Label>, x: SnapshotId, n: Name)
    requires Inv(s) && x in s.rows && !Readable(s, x, n)
    ensures !Readable(Runs.Exec(Next, s, ls), x, n)
    decreases |ls|
  {
    if ls != [] {
      var t := Next(s, ls[0]);
      InvKeeps(s, ls[0]);
      NothingComesBack(s, ls[0], x, n);
      ReadableExactlyWithKeys(s, x, n);
      ReadableExactlyWithKeys(t, x, n);
      LostReadabilityNeverReturns(t, ls[1..], x, n);
    }
  }

  lemma ErasedLacksKeys(s: State, x: SnapshotId, y: SnapshotId, n: Name)
    requires x in s.rows && y != x
    ensures var t := Next(s, EraseSnapshot(x));
      && !HasKeys(t, x)
      && (HasKeys(t, y) <==> HasKeys(s, y))
      && (HasArtifact(t, y, n) <==> HasArtifact(s, y, n))
  {
  }

  /** Erasing one snapshot leaves every other snapshot exactly as readable as it was. */
  lemma PruningSparesSiblings(s: State, x: SnapshotId, y: SnapshotId, n: Name)
    requires Inv(s) && x in s.rows && y != x
    ensures !Readable(Next(s, EraseSnapshot(x)), x, n)
    ensures Readable(Next(s, EraseSnapshot(x)), y, n) <==> Readable(s, y, n)
  {
    InvKeeps(s, EraseSnapshot(x));
    ErasedLacksKeys(s, x, y, n);
    ReadableExactlyWithKeys(s, y, n);
    ReadableExactlyWithKeys(Next(s, EraseSnapshot(x)), y, n);
    ReadableExactlyWithKeys(Next(s, EraseSnapshot(x)), x, n);
  }

  /** Erasing a session makes all of its snapshots unreadable and no other session's. */
  lemma SessionErasureIsComplete(s: State, i: SessionId, x: SnapshotId, n: Name)
    requires Inv(s) && x in s.rows
    ensures var t := Next(s, EraseSession(i));
      Readable(t, x, n) <==> Readable(s, x, n) && s.rows[x].session != i
  {
    var t := Next(s, EraseSession(i));
    InvKeeps(s, EraseSession(i));
    ReadableExactlyWithKeys(s, x, n);
    ReadableExactlyWithKeys(t, x, n);
    assert HasArtifact(t, x, n) <==> HasArtifact(s, x, n);
  }

  // ---------------------------------------------------------------------------
  // Physical deletion

  /** The manifest, which is the plan for deleting the rest, is there or there is nothing left to delete. */
  ghost predicate Guarded(objects: set<Object>, x: SnapshotId) {
    Manifest(x) in objects || forall o :: o in objects ==> o.snapshot != x
  }

  /** No object named `n` of snapshot `x`. */
  ghost predicate Cleared(objects: set<Object>, x: SnapshotId, n: Name) {
    forall o :: o in objects && o.Artifact? && o.snapshot == x ==> o.name != n
  }

  /** A worker has cleared the names it no longer lists, and the manifest once it says so. */
  ghost predicate WorkerInv(s: State, k: Worker) {
    && k.snapshot in s.published
    && (forall n :: n !in k.left ==> Cleared(s.objects, k.snapshot, n))
    && (k.gone ==> k.left == [] && Manifest(k.snapshot) !in s.objects)
  }

  ghost predicate DeletionInv(s: State) {
    && (forall x :: x in s.rows ==> x in s.published)
    && (forall x :: x in s.flights ==> (x in s.published <==> !s.flights[x].stage.Uploading?))
    && (forall x :: x in s.doubts ==> x in s.published && x !in s.flights)
    && (forall x :: x in s.published ==> x in s.used && Guarded(s.objects, x))
    && (forall w :: w in s.workers ==> WorkerInv(s, s.workers[w]))
    && (forall x :: x in s.outbox && s.outbox[x] ==> forall o :: o in s.objects ==> o.snapshot != x)
    && (forall x :: x in s.rows && s.rows[x].state.PhysicallyDeleted? ==> x in s.outbox && s.outbox[x])
  }

  /** Steps that add no object to a published snapshot and remove none keep every worker's account. */
  lemma WorkersKeep(s: State, t: State, k: Worker)
    requires WorkerInv(s, k) && s.published <= t.published
    requires forall o :: o in t.objects && o.snapshot == k.snapshot ==> o in s.objects
    ensures WorkerInv(t, k)
  {
  }

  lemma UploadKeepsDeletion(s: State, l: Label)
    requires KeysInv(s) && ErasureInv(s) && DeletionInv(s) && Enabled(s, l) && (l.Upload? || l.PutManifest?)
    ensures DeletionInv(Next(s, l))
  {
    var t := Next(s, l);
    forall w | w in t.workers ensures WorkerInv(t, t.workers[w]) {
      assert WorkerInv(s, s.workers[w]);
      assert s.workers[w].snapshot != l.x;
      WorkersKeep(s, t, s.workers[w]);
    }
    forall x | x in t.published ensures x in t.used && Guarded(t.objects, x) {
      if x in s.published {
        assert Guarded(s.objects, x) && x != l.x;
      }
    }
  }

  /** Steps on the tables alone: the store, the workers and what was published stay as they are. */
  lemma StoreUntouched(s: State, t: State)
    requires DeletionInv(s) && t.objects == s.objects && t.workers == s.workers
    requires t.published == s.published && s.used <= t.used
    ensures forall w :: w in t.workers ==> WorkerInv(t, t.workers[w])
    ensures forall x :: x in t.published ==> x in t.used && Guarded(t.objects, x)
  {
    forall w | w in t.workers ensures WorkerInv(t, t.workers[w]) {
      WorkersKeep(s, t, s.workers[w]);
    }
  }

  lemma EraseKeepsDeletion(s: State, l: Label)
    requires DeletionInv(s) && Enabled(s, l) && (l.EraseSnapshot? || l.EraseSession?)
    ensures DeletionInv(Next(s, l))
  {
    StoreUntouched(s, Next(s, l));
  }

  lemma CommitKeepsDeletion(s: State, x: SnapshotId, ending: Ending)
    requires KeysInv(s) && DeletionInv(s) && Enabled(s, Commit(x, ending))
    ensures DeletionInv(Next(s, Commit(x, ending)))
  {
    StoreUntouched(s, Next(s, Commit(x, ending)));
  }

  lemma CaptureKeepsDeletion(s: State, l: Label)
    requires KeysInv(s) && DeletionInv(s) && Enabled(s, l) && (l.Provision? || l.BeginCapture? || l.Abort?)
    ensures DeletionInv(Next(s, l))
  {
    StoreUntouched(s, Next(s, l));
  }

  lemma DeleteKeepsDeletion(s: State, l: Label)
    requires DeletionInv(s) && Enabled(s, l) && (l.DeleteArtifact? || l.DeleteManifest?)
    ensures DeletionInv(Next(s, l))
  {
    var t := Next(s, l);
    var k := s.workers[l.w];
    assert WorkerInv(s, k);
    assert t.objects <= s.objects;
    forall w | w in t.workers ensures WorkerInv(t, t.workers[w]) {
      assert WorkerInv(s, s.workers[w]);
      WorkersKeep(s, t, s.workers[w]);
      if w == l.w && l.DeleteArtifact? {
        assert forall n :: n in k.left ==> n == k.left[0] || n in k.left[1..];
      }
    }
    forall x | x in t.published ensures x in t.used && Guarded(t.objects, x) {
      assert Guarded(s.objects, x);
      if x == k.snapshot && l.DeleteManifest? {
        forall o | o in t.objects ensures o.snapshot != x {
          if o.Artifact? {
            assert Cleared(s.objects, k.snapshot, o.name);
          }
        }
      }
    }
  }

  lemma BookkeepingKeepsDeletion(s: State, l: Label)
    requires DeletionInv(s) && Enabled(s, l)
    requires l.ReadManifest? || l.Complete? || l.MarkPhysical? || l.WorkerDies?
    requires l.ReadManifest? ==> l.x in s.published
    ensures DeletionInv(Next(s, l))
  {
    var t := Next(s, l);
    assert t.objects == s.objects && t.published == s.published;
    forall w | w in t.workers ensures WorkerInv(t, t.workers[w]) {
      if w in s.workers {
        assert WorkerInv(s, s.workers[w]);
      } else {
        var left := t.workers[w].left;
        forall n ensures n in left {
          match n
          case StateFile => assert left[0] == n;
          case MemoryFile => assert left[1] == n;
        }
      }
    }
    if l.Complete? {
      var k := s.workers[l.w];
      assert WorkerInv(s, k);
      forall o | o in t.objects ensures o.snapshot != k.snapshot {
        if o.Artifact? {
          assert Cleared(s.objects, k.snapshot, o.name);
        }
      }
    }
    forall x | x in t.published ensures x in t.used && Guarded(t.objects, x) {
      assert Guarded(s.objects, x);
    }
  }

  lemma DeletionKeeps(s: State, l: Label)
    requires Inv(s) && DeletionInv(s)
    ensures DeletionInv(Next(s, l))
  {
    if Enabled(s, l) {
      match l
      case Upload(_, _) => UploadKeepsDeletion(s, l);
      case PutManifest(_) => UploadKeepsDeletion(s, l);
      case DeleteArtifact(_) => DeleteKeepsDeletion(s, l);
      case DeleteManifest(_) => DeleteKeepsDeletion(s, l);
      case ReadManifest(_, _, _) => BookkeepingKeepsDeletion(s, l);
      case Complete(_) => BookkeepingKeepsDeletion(s, l);
      case MarkPhysical(_) => BookkeepingKeepsDeletion(s, l);
      case WorkerDies(_) => BookkeepingKeepsDeletion(s, l);
      case EraseSnapshot(_) => EraseKeepsDeletion(s, l);
      case EraseSession(_) => EraseKeepsDeletion(s, l);
      case Commit(x, ending) => CommitKeepsDeletion(s, x, ending);
      case _ => CaptureKeepsDeletion(s, l);
    }
  }

  /**
   At every point of every run, across partial deletions, retries and concurrent
   workers: a committed snapshot's manifest is still in the store or all of its
   objects are gone, and a completed deletion, like the state it leads to, means
   that every object is gone.
   */
  lemma DeletionLeavesNoOrphans(ls: seq<Label>, x: SnapshotId)
    requires x in After(ls).rows
    ensures var s := After(ls);
      && (Manifest(x) in s.objects || forall o :: o in s.objects ==> o.snapshot != x)
      && (x in s.outbox && s.outbox[x] ==> forall o :: o in s.objects ==> o.snapshot != x)
      && (s.rows[x].state.PhysicallyDeleted? ==> forall o :: o in s.objects ==> o.snapshot != x)
  {
    AllAlongRuns(ls);
    assert Guarded(After(ls).objects, x);
  }

  lemma AllKeep(s: State, l: Label)
    requires Inv(s) && DeletionInv(s) && StoreInv(s)
    ensures Inv(Next(s, l)) && DeletionInv(Next(s, l)) && StoreInv(Next(s, l))
  {
    InvKeeps(s, l);
    DeletionKeeps(s, l);
    StoreKeeps(s, l);
  }

  lemma AllAlongRuns(ls: seq<Label>)
    ensures Inv(After(ls)) && DeletionInv(After(ls)) && StoreInv(After(ls))
  {
    var inv := (s: State) => Inv(s) && DeletionInv(s) && StoreInv(s);
    forall s: State, l: Label | inv(s) ensures inv(Next(s, l)) {
      AllKeep(s, l);
    }
    Runs.InvariantHolds(Next, inv, INITIAL, ls);
  }

  // ---------------------------------------------------------------------------
  // What is stored of an active snapshot

  ghost predicate StoredWhole(s: State, x: SnapshotId) {
    Manifest(x) in s.objects && HasArtifact(s, x, StateFile) && HasArtifact(s, x, MemoryFile)
  }

  /** A capture has stored what it says; a snapshot nobody was told to delete is stored whole; nobody else deletes. */
  ghost predicate StoreInv(s: State) {
    && (forall x :: x in s.flights ==> FlightStored(s, x))
    && (forall x :: x in s.rows && x !in s.outbox && x !in s.doubts ==> StoredWhole(s, x))
    && (forall w :: w in s.workers ==> s.workers[w].snapshot in s.outbox || s.workers[w].snapshot in s.doubts)
    && (forall w :: w in s.workers && s.workers[w].forOutbox ==> s.workers[w].snapshot in s.outbox)
    && (forall x :: x in s.rows ==> if s.rows[x].state.Active? then x in s.snapshotKeys else x in s.outbox)
  }

  ghost predicate FlightStored(s: State, x: SnapshotId)
    requires x in s.flights
  {
    && (forall n :: n in s.flights[x].uploaded ==> HasArtifact(s, x, n))
    && (s.flights[x].stage.Published? ==> StoredWhole(s, x))
  }

  /** Nobody deletes from a snapshot that has no worker. */
  lemma ObjectsStay(s: State, l: Label, x: SnapshotId, n: Name)
    requires forall w :: w in s.workers ==> s.workers[w].snapshot != x
    ensures Manifest(x) in s.objects ==> Manifest(x) in Next(s, l).objects
    ensures HasArtifact(s, x, n) ==> HasArtifact(Next(s, l), x, n)
  {
    forall o | o in s.objects && o.snapshot == x
      ensures o in Next(s, l).objects
    {
    }
  }

  lemma WholeStays(s: State, l: Label, x: SnapshotId)
    requires StoredWhole(s, x) && forall w :: w in s.workers ==> s.workers[w].snapshot != x
    ensures StoredWhole(Next(s, l), x)
  {
    ObjectsStay(s, l, x, StateFile);
    ObjectsStay(s, l, x, MemoryFile);
  }

  lemma FlightStoreKeeps(s: State, l: Label, x: SnapshotId)
    requires Inv(s) && DeletionInv(s) && StoreInv(s) && x in Next(s, l).flights
    ensures FlightStored(Next(s, l), x)
  {
    if x in s.flights {
      assert x !in s.doubts && x !in s.outbox;
      FlightKeepsStored(s, l, x);
    } else {
      NewFlightIsEmpty(s, l, x);
    }
  }

  lemma NewFlightIsEmpty(s: State, l: Label, x: SnapshotId)
    requires x !in s.flights && x in Next(s, l).flights
    ensures Next(s, l).flights[x].uploaded == {} && Next(s, l).flights[x].stage.Uploading?
  {
  }

  lemma FlightKeepsStored(s: State, l: Label, x: SnapshotId)
    requires x in s.flights && x in s.used && x in Next(s, l).flights && FlightStored(s, x)
    requires forall w :: w in s.workers ==> s.workers[w].snapshot != x
    ensures FlightStored(Next(s, l), x)
  {
    var t := Next(s, l);
    forall n | n in t.flights[x].uploaded
      ensures HasArtifact(t, x, n)
    {
      ObjectsStay(s, l, x, n);
      UploadStores(s, l, x, n);
    }
    if s.flights[x].stage.Published? {
      WholeStays(s, l, x);
    }
    PublishingStores(s, l, x);
  }

  lemma UploadStores(s: State, l: Label, x: SnapshotId, n: Name)
    requires x in s.flights && x in s.used && x in Next(s, l).flights && n in Next(s, l).flights[x].uploaded
    ensures n in s.flights[x].uploaded || HasArtifact(Next(s, l), x, n)
  {
    if l.Upload? && Enabled(s, l) && n !in s.flights[x].uploaded {
      var f := s.flights[x];
      var box := Encrypt(Image(x, n), f.kek, f.dek, ArtifactAad(f.session, x, n)).value;
      assert Artifact(x, n, box) in Next(s, l).objects;
    }
  }

  lemma PublishingStores(s: State, l: Label, x: SnapshotId)
    requires x in s.flights && x in s.used && x in Next(s, l).flights && FlightStored(s, x)
    requires forall w :: w in s.workers ==> s.workers[w].snapshot != x
    ensures s.flights[x].stage.Uploading? && Next(s, l).flights[x].stage.Published? ==> StoredWhole(Next(s, l), x)
  {
    if l.PutManifest? && Enabled(s, l) {
      assert StateFile in s.flights[l.x].uploaded && MemoryFile in s.flights[l.x].uploaded;
      ObjectsStay(s, l, x, StateFile);
      ObjectsStay(s, l, x, MemoryFile);
    }
  }

  lemma RowStoreKeeps(s: State, l: Label, x: SnapshotId)
    requires Inv(s) && DeletionInv(s) && StoreInv(s)
    requires x in Next(s, l).rows && x !in Next(s, l).outbox && x !in Next(s, l).doubts
    ensures StoredWhole(Next(s, l), x)
  {
    OutboxAndDoubtsGrow(s, l);
    if x in s.rows {
      WholeStays(s, l, x);
    } else {
      assert l.Commit? && l.x == x && FlightStored(s, x);
      WholeStays(s, l, x);
    }
  }

  lemma OutboxAndDoubtsGrow(s: State, l: Label)
    ensures s.outbox.Keys <= Next(s, l).outbox.Keys && s.doubts.Keys <= Next(s, l).doubts.Keys
  {
    if !WritesTables(l) {
      TablesSame(s, l);
    }
    DoubtsGrow(s, l);
  }

  lemma DoubtsGrow(s: State, l: Label)
    ensures s.doubts.Keys <= Next(s, l).doubts.Keys
  {
    if !l.Commit? && !l.ReadManifest? {
      DoubtsSame(s, l);
    }
  }

  lemma DoubtsSame(s: State, l: Label)
    requires !l.Commit? && !l.ReadManifest?
    ensures Next(s, l).doubts == s.doubts
  {
  }

  lemma WorkersAreAsked(s: State, l: Label)
    requires StoreInv(s)
    ensures var t := Next(s, l); forall w :: w in t.workers ==>
      (t.workers[w].snapshot in t.outbox || t.workers[w].snapshot in t.doubts)
      && (t.workers[w].forOutbox ==> t.workers[w].snapshot in t.outbox)
  {
    OutboxAndDoubtsGrow(s, l);
    if !MovesWorker(l) {
      WorkersSame(s, l);
    }
  }

  predicate MovesWorker(l: Label) {
    l.ReadManifest? || l.DeleteArtifact? || l.DeleteManifest? || l.WorkerDies?
  }

  lemma WorkersSame(s: State, l: Label)
    requires !MovesWorker(l)
    ensures Next(s, l).workers == s.workers
  {
  }

  lemma InactiveIsQueued(s: State, l: Label, x: SnapshotId)
    requires StoreInv(s) && x in Next(s, l).rows
    ensures if Next(s, l).rows[x].state.Active? then x in Next(s, l).snapshotKeys else x in Next(s, l).outbox
  {
    OutboxAndDoubtsGrow(s, l);
    if !WritesTables(l) {
      TablesSame(s, l);
    } else if l.EraseSession? {
      SessionIsQueued(s, l.s, x);
    }
  }

  lemma SessionIsQueued(s: State, i: SessionId, x: SnapshotId)
    requires x in s.rows && (if s.rows[x].state.Active? then x in s.snapshotKeys else x in s.outbox)
    ensures var t := Next(s, EraseSession(i));
      if t.rows[x].state.Active? then x in t.snapshotKeys else x in t.outbox
  {
    assert x in ActiveOf(s.rows, i) <==> s.rows[x].session == i && s.rows[x].state.Active?;
  }

  lemma StoreKeeps(s: State, l: Label)
    requires Inv(s) && DeletionInv(s) && StoreInv(s)
    ensures StoreInv(Next(s, l))
  {
    var t := Next(s, l);
    forall x | x in t.flights ensures FlightStored(t, x) {
      FlightStoreKeeps(s, l, x);
    }
    forall x | x in t.rows && x !in t.outbox && x !in t.doubts ensures StoredWhole(t, x) {
      RowStoreKeeps(s, l, x);
    }
    forall x | x in t.rows ensures if t.rows[x].state.Active? then x in t.snapshotKeys else x in t.outbox {
      InactiveIsQueued(s, l, x);
    }
    WorkersAreAsked(s, l);
  }

  /** An active snapshot of a session with its key is readable in both parts, unless its capture's commit reported an error. */
  lemma ActiveIsReadable(ls: seq<Label>, x: SnapshotId, n: Name)
    requires var s := After(ls);
      x in s.rows && s.rows[x].state.Active? && s.rows[x].session in s.sessionKeys && x !in s.doubts
    ensures Readable(After(ls), x, n)
  {
    var s := After(ls);
    AllAlongRuns(ls);
    assert StoredWhole(s, x);
    ReadableExactlyWithKeys(s, x, n);
  }

  ghost predicate LostWhileActive(ls: seq<Label>, x: SnapshotId, n: Name, doubted: bool) {
    var s := After(ls);
    && x in s.rows && s.rows[x].state.Active? && s.rows[x].session in s.sessionKeys
    && (x in s.doubts <==> doubted) && !Readable(s, x, n)
  }

  lemma Then(ls: seq<Label>, l: Label) returns (longer: seq<Label>)
    ensures longer == ls + [l] && After(longer) == Next(After(ls), l)
  {
    longer := ls + [l];
    Runs.ExecSnoc(Next, INITIAL, ls, l);
  }

  lemma FlightCanEncrypt(i: SessionId, x: SnapshotId, n: Name)
    ensures Encrypt(Image(x, n), WrappedSessionKek(i), Box(KeyBytes(Dek(x)), Kek(i), SnapshotDekAad), ArtifactAad(i, x, n)).Some?
    ensures WrappedSnapshotDek(WrappedSessionKek(i), x) == Some(Box(KeyBytes(Dek(x)), Kek(i), SnapshotDekAad))
  {
    assert Unwrap(WrappedSessionKek(i), Root, SessionKekAad) == Some(Kek(i));
  }

  /** A run with a capture that has stored everything and is about to commit. */
  lemma CaptureReady() returns (ls: seq<Label>)
    ensures var s := After(ls);
      0 in s.flights && s.flights[0].stage.Published? && s.flights[0].session == 0 && 0 in s.sessionKeys && s.workers == map[]
  {
    FlightCanEncrypt(0, 0, StateFile);
    FlightCanEncrypt(0, 0, MemoryFile);
    var f := Flight(0, WrappedSessionKek(0), Box(KeyBytes(Dek(0)), Kek(0), SnapshotDekAad), {}, Uploading);
    ls := Then([], Provision(0));
    ls := Then(ls, BeginCapture(0, 0));
    assert After(ls).flights == map[0 := f];
    ls := Then(ls, Upload(0, StateFile));
    assert {} + {StateFile} == {StateFile};
    assert After(ls).flights == map[0 := f.(uploaded := {StateFile})];
    ls := Then(ls, Upload(0, MemoryFile));
    assert {StateFile} + {MemoryFile} == {StateFile, MemoryFile};
    assert After(ls).flights == map[0 := f.(uploaded := {StateFile, MemoryFile})];
    ls := Then(ls, PutManifest(0));
  }

  /** After an ambiguous commit a capture deletes the objects of the snapshot it did commit. */
  lemma DiscardAfterCommit(s: State, x: SnapshotId, w: WorkerId)
    requires x in s.flights && s.flights[x].stage.Published? && Manifest(x) in s.objects && w !in s.workers
    ensures var t := Next(Next(Next(s, Commit(x, Ambiguous)), ReadManifest(w, x, false)), DeleteArtifact(w));
      && x in t.rows && t.rows[x] == Row(s.flights[x].session, Active) && x in t.doubts
      && t.sessionKeys == s.sessionKeys && !HasArtifact(t, x, StateFile)
  {
    var t := Settled(s, x, Ambiguous);
    assert Next(s, Commit(x, Ambiguous)) == t;
    var k := Worker(x, [StateFile, MemoryFile], false, false);
    var u := t.(workers := t.workers[w := k], doubts := t.doubts[x := false]);
    assert Next(t, ReadManifest(w, x, false)) == u;
    assert Next(u, DeleteArtifact(w)).objects == Deleted(s.objects, x, StateFile);
  }

  lemma AmbiguousCommitLoses() returns (ls: seq<Label>)
    ensures LostWhileActive(ls, 0, StateFile, true)
  {
    ls := CaptureReady();
    AllAlongRuns(ls);
    assert FlightStored(After(ls), 0);
    DiscardAfterCommit(After(ls), 0, 0);
    ls := Then(ls, Commit(0, Ambiguous));
    ls := Then(ls, ReadManifest(0, 0, false));
    ls := Then(ls, DeleteArtifact(0));
    LacksArtifact(ls, 0, StateFile);
  }

  lemma LacksArtifact(ls: seq<Label>, x: SnapshotId, n: Name)
    requires !HasArtifact(After(ls), x, n)
    ensures !Readable(After(ls), x, n)
  {
    InvAlongRuns(ls);
    ReadableExactlyWithKeys(After(ls), x, n);
  }

  /**
   An active snapshot of a session that still has its key is unreadable on some run if
   and only if its capture's transaction committed and reported an error.
   */
  lemma LostWhileActiveExactlyWhenDoubted(doubted: bool)
    ensures (exists ls: seq<Label>, x: SnapshotId, n: Name :: LostWhileActive(ls, x, n, doubted)) <==> doubted
  {
    if doubted {
      var ls := AmbiguousCommitLoses();
    } else {
      forall ls: seq<Label>, x: SnapshotId, n: Name
        ensures !LostWhileActive(ls, x, n, doubted)
      {
        var s := After(ls);
        if x in s.rows && s.rows[x].state.Active? && s.rows[x].session in s.sessionKeys && x !in s.doubts {
          ActiveIsReadable(ls, x, n);
        }
      }
    }
  }

  // ---------------------------------------------------------------------------
  // What the components of a reachable state stand for

  /** The label is taken, and is as `on` says in the state it meets. */
  ghost function Effective(on: (State, Label) -> bool): (State, Label) -> bool {
    (s: State, l: Label) => Enabled(s, l) && on(s, l)
  }

  /** The worker whose step the label is has this snapshot to delete. */
  predicate WorksOn(s: State, w: WorkerId, x: SnapshotId) {
    w in s.workers && s.workers[w].snapshot == x
  }

  /** What can have happened to a snapshot for good. */
  datatype Milestone = Began | WasPublished | WasCommitted | WasDoubted | WasErased | WasCompleted | WasMarked

  ghost predicate Passed(s: State, x: SnapshotId, m: Milestone) {
    match m
    case Began => x in s.used
    case WasPublished => x in s.published
    case WasCommitted => x in s.rows
    case WasDoubted => x in s.doubts
    case WasErased => x in s.rows && !s.rows[x].state.Active?
    case WasCompleted => x in s.outbox && s.outbox[x]
    case WasMarked => x in s.rows && s.rows[x].state.PhysicallyDeleted?
  }

  /** The label that does it. */
  predicate Passes(s: State, l: Label, x: SnapshotId, m: Milestone) {
    match m
    case Began => l.BeginCapture? && l.x == x
    case WasPublished => l == PutManifest(x)
    case WasCommitted => l.Commit? && l.x == x && !l.ending.RolledBack?
    case WasDoubted => l.Commit? && l.x == x && !l.ending.Committed?
    case WasErased => l == EraseSnapshot(x) || (l.EraseSession? && x in s.rows && s.rows[x].session == l.s)
    case WasCompleted => l.Complete? && WorksOn(s, l.w, x)
    case WasMarked => l.MarkPhysical? && WorksOn(s, l.w, x)
  }

  ghost predicate PassedByStep(s: State, l: Label, x: SnapshotId, m: Milestone) {
    Passed(Next(s, l), x, m) <==> Passed(s, x, m) || (Enabled(s, l) && Passes(s, l, x, m))
  }

  lemma TablesPassed(s: State, l: Label, x: SnapshotId, m: Milestone)
    requires KeysInv(s) && ErasureInv(s) && (m.WasCommitted? || m.WasErased? || m.WasCompleted? || m.WasMarked?)
    ensures PassedByStep(s, l, x, m)
  {
    if !WritesTables(l) {
      TablesSame(s, l);
    } else if l.EraseSession? || l.EraseSnapshot? {
      ErasingPassed(s, l, x, m);
    } else if l.Commit? {
      CommitPassed(s, l.x, l.ending, x, m);
    } else {
      BookkeepingPassed(s, l, x, m);
    }
  }

  lemma BookkeepingPassed(s: State, l: Label, x: SnapshotId, m: Milestone)
    requires ErasureInv(s) && (m.WasCommitted? || m.WasErased? || m.WasCompleted? || m.WasMarked?)
    requires l.Provision? || l.Complete? || l.MarkPhysical?
    ensures PassedByStep(s, l, x, m)
  {
  }

  lemma ErasingPassed(s: State, l: Label, x: SnapshotId, m: Milestone)
    requires m.WasCommitted? || m.WasErased? || m.WasCompleted? || m.WasMarked?
    requires l.EraseSession? || l.EraseSnapshot?
    ensures PassedByStep(s, l, x, m)
  {
  }

  lemma CommitPassed(s: State, y: SnapshotId, ending: Ending, x: SnapshotId, m: Milestone)
    requires KeysInv(s) && (m.WasCommitted? || m.WasErased? || m.WasCompleted? || m.WasMarked?)
    ensures PassedByStep(s, Commit(y, ending), x, m)
  {
    if y in s.rows {
      assert !Enabled(s, Commit(y, ending));
    }
  }

  lemma BeganPassed(s: State, l: Label, x: SnapshotId)
    ensures PassedByStep(s, l, x, Began)
  {
  }

  lemma PublishedPassed(s: State, l: Label, x: SnapshotId)
    ensures PassedByStep(s, l, x, WasPublished)
  {
  }

  lemma DoubtedPassed(s: State, l: Label, x: SnapshotId)
    ensures PassedByStep(s, l, x, WasDoubted)
  {
    match l
    case Commit(y, ending) => DoubtBegins(s, y, ending, x);
    case ReadManifest(w, y, forOutbox) => DoubtEnds(s, w, y, forOutbox, x);
    case _ => DoubtsSame(s, l);
  }

  lemma DoubtBegins(s: State, y: SnapshotId, ending: Ending, x: SnapshotId)
    ensures PassedByStep(s, Commit(y, ending), x, WasDoubted) && PresentAfter(s, Commit(y, ending), DiscardDue(x))
  {
  }

  lemma DoubtEnds(s: State, w: WorkerId, y: SnapshotId, forOutbox: bool, x: SnapshotId)
    ensures PassedByStep(s, ReadManifest(w, y, forOutbox), x, WasDoubted)
    ensures PresentAfter(s, ReadManifest(w, y, forOutbox), DiscardDue(x))
  {
  }

  lemma MilestoneStep(s: State, l: Label, x: SnapshotId, m: Milestone)
    requires Inv(s)
    ensures PassedByStep(s, l, x, m)
  {
    match m
    case Began => BeganPassed(s, l, x);
    case WasPublished => PublishedPassed(s, l, x);
    case WasDoubted => DoubtedPassed(s, l, x);
    case _ => TablesPassed(s, l, x, m);
  }

  /**
   What a snapshot has been through is what happened in the run. In particular it has a
   row exactly if its commit took effect, reported or not; that row stopped being active
   exactly if the snapshot or its session was erased after that; and it is marked
   physically deleted exactly if a worker that had completed its deletion marked it.
   */
  lemma MilestonesArePassed(ls: seq<Label>, x: SnapshotId, m: Milestone)
    ensures Passed(After(ls), x, m)
       <==> Runs.Occurs(After, ls, Effective((s: State, l: Label) => Passes(s, l, x, m)))
  {
    var fact, on := (s: State) => Passed(s, x, m), Effective((s: State, l: Label) => Passes(s, l, x, m));
    forall init: seq<Label>, l: Label ensures Runs.Arises(After, fact, on, init, l) {
      InvAlongRuns(init);
      var longer := Then(init, l);
      MilestoneStep(After(init), l, x, m);
    }
    Runs.FactIsHistory(After, fact, on, ls);
  }

  /** What can be there and be gone again. */
  datatype Thing =
    | SessionKey(i: SessionId)
    | SnapshotKey(x: SnapshotId)
    | InFlight(x: SnapshotId)
    | HasManifest(x: SnapshotId)
    | HasPart(x: SnapshotId, n: Name)
    | HasLiving(w: WorkerId)
    | DiscardDue(x: SnapshotId)

  ghost predicate Present(s: State, thing: Thing) {
    match thing
    case SessionKey(i) => i in s.sessionKeys
    case SnapshotKey(x) => x in s.snapshotKeys
    case InFlight(x) => x in s.flights
    case HasManifest(x) => Manifest(x) in s.objects
    case HasPart(x, n) => HasArtifact(s, x, n)
    case HasLiving(w) => w in s.workers
    case DiscardDue(x) => x in s.doubts && s.doubts[x]
  }

  predicate Brings(s: State, l: Label, thing: Thing) {
    match thing
    case SessionKey(i) => l == Provision(i)
    case SnapshotKey(x) => Passes(s, l, x, WasCommitted)
    case InFlight(x) => Passes(s, l, x, Began)
    case HasManifest(x) => l == PutManifest(x)
    case HasPart(x, n) => l == Upload(x, n)
    case HasLiving(w) => l.ReadManifest? && l.w == w
    case DiscardDue(x) => Passes(s, l, x, WasDoubted)
  }

  predicate Removes(s: State, l: Label, thing: Thing) {
    match thing
    case SessionKey(i) => l == EraseSession(i)
    case SnapshotKey(x) => l == EraseSnapshot(x)
    case InFlight(x) => l == Abort(x) || (l.Commit? && l.x == x)
    case HasManifest(x) => l.DeleteManifest? && WorksOn(s, l.w, x)
    case HasPart(x, n) =>
      l.DeleteArtifact? && WorksOn(s, l.w, x) && s.workers[l.w].left != [] && s.workers[l.w].left[0] == n
    case HasLiving(w) => l == WorkerDies(w)
    case DiscardDue(x) => l.ReadManifest? && l.x == x && !l.forOutbox
  }

  ghost predicate PresentAfter(s: State, l: Label, thing: Thing) {
    Present(Next(s, l), thing) <==>
      (Enabled(s, l) && Brings(s, l, thing)) || (Present(s, thing) && !(Enabled(s, l) && Removes(s, l, thing)))
  }

  lemma KeysPresent(s: State, l: Label, thing: Thing)
    requires thing.SessionKey? || thing.SnapshotKey?
    ensures PresentAfter(s, l, thing)
  {
    if !WritesTables(l) {
      TablesSame(s, l);
    }
  }

  lemma FlightPresent(s: State, l: Label, x: SnapshotId)
    ensures PresentAfter(s, l, InFlight(x))
  {
    if !MovesFlight(l) {
      FlightsSame(s, l);
    } else if l.BeginCapture? || l.Commit? {
      FlightEnds(s, l, x);
    }
  }

  lemma FlightEnds(s: State, l: Label, x: SnapshotId)
    requires l.BeginCapture? || l.Commit?
    ensures PresentAfter(s, l, InFlight(x))
  {
  }

  lemma ManifestPresent(s: State, l: Label, x: SnapshotId)
    ensures PresentAfter(s, l, HasManifest(x))
  {
    if !MovesObjects(l) {
      ObjectsSame(s, l);
    }
  }

  lemma PartPresent(s: State, l: Label, x: SnapshotId, n: Name)
    ensures PresentAfter(s, l, HasPart(x, n))
  {
    if !MovesObjects(l) {
      ObjectsSame(s, l);
    } else if !Enabled(s, l) {
    } else if l.Upload? {
      PartUploaded(s, l.x, l.n, x, n);
    } else if l.PutManifest? {
      PartUnaffected(s, l, x, n);
    } else if l.DeleteManifest? {
      PartUnaffected(s, l, x, n);
    } else {
      PartDeleted(s, l.w, x, n);
    }
  }

  lemma PartUploaded(s: State, y: SnapshotId, m: Name, x: SnapshotId, n: Name)
    requires Enabled(s, Upload(y, m))
    ensures HasArtifact(Next(s, Upload(y, m)), x, n) <==> (y == x && m == n) || HasArtifact(s, x, n)
  {
    var f := s.flights[y];
    var o := Artifact(y, m, Encrypt(Image(y, m), f.kek, f.dek, ArtifactAad(f.session, y, m)).value);
    var t := Next(s, Upload(y, m));
    assert t.objects == s.objects + {o};
    assert o in t.objects;
    if HasArtifact(s, x, n) {
      var p :| p in s.objects && p.Artifact? && p.snapshot == x && p.name == n;
      assert p in t.objects;
    }
  }

  lemma PartUnaffected(s: State, l: Label, x: SnapshotId, n: Name)
    requires l.PutManifest? || l.DeleteManifest?
    ensures HasArtifact(Next(s, l), x, n) <==> HasArtifact(s, x, n)
  {
    assert forall o: Object :: o.Artifact? ==> (o in Next(s, l).objects <==> o in s.objects);
  }

  lemma PartDeleted(s: State, w: WorkerId, x: SnapshotId, n: Name)
    requires Enabled(s, DeleteArtifact(w))
    ensures HasArtifact(Next(s, DeleteArtifact(w)), x, n)
       <==> HasArtifact(s, x, n) && !(s.workers[w].snapshot == x && s.workers[w].left[0] == n)
  {
    var t := Next(s, DeleteArtifact(w));
    assert t.objects == Deleted(s.objects, s.workers[w].snapshot, s.workers[w].left[0]);
  }

  lemma DiscardPresent(s: State, l: Label, x: SnapshotId)
    ensures PresentAfter(s, l, DiscardDue(x))
  {
    match l
    case Commit(y, ending) => DoubtBegins(s, y, ending, x);
    case ReadManifest(w, y, forOutbox) => DoubtEnds(s, w, y, forOutbox, x);
    case _ => DoubtsSame(s, l);
  }

  lemma WorkerPresent(s: State, l: Label, w: WorkerId)
    ensures PresentAfter(s, l, HasLiving(w))
  {
    if !MovesWorker(l) {
      WorkersSame(s, l);
    }
  }

  /**
   Keys, objects, captures and workers are there exactly since the step that brings them
   and until the one that removes them: a wrapped DEK since its commit until its snapshot
   is erased, a session's wrapped KEK until the session is erased, an artifact since its
   upload until a worker deletes that artifact.
   */
  lemma PresentIsSince(ls: seq<Label>, thing: Thing)
    ensures Present(After(ls), thing)
       <==> Runs.Since(After, ls, Effective((s: State, l: Label) => Brings(s, l, thing)),
                       Effective((s: State, l: Label) => Removes(s, l, thing)))
  {
    var fact := (s: State) => Present(s, thing);
    var on := Effective((s: State, l: Label) => Brings(s, l, thing));
    var off := Effective((s: State, l: Label) => Removes(s, l, thing));
    forall init: seq<Label>, l: Label ensures Runs.Follows(After, fact, on, off, init, l) {
      var longer := Then(init, l);
      ThingStep(After(init), l, thing);
    }
    Runs.FactIsSince(After, fact, on, off, ls);
  }

  lemma ThingStep(s: State, l: Label, thing: Thing)
    ensures PresentAfter(s, l, thing)
  {
    match thing
    case InFlight(x) => FlightPresent(s, l, x);
    case HasManifest(x) => ManifestPresent(s, l, x);
    case HasPart(x, n) => PartPresent(s, l, x, n);
    case HasLiving(w) => WorkerPresent(s, l, w);
    case DiscardDue(x) => DiscardPresent(s, l, x);
    case _ => KeysPresent(s, l, thing);
  }

  /**
   From every reachable state, a capture whose commit takes effect leaves an active
   snapshot of its session, with its wrapped DEK, stored whole and readable in both parts
   as long as the session has its key.
   */
  lemma CommitLeavesSnapshot(ls: seq<Label>, x: SnapshotId, ending: Ending, n: Name)
    requires Enabled(After(ls), Commit(x, ending)) && !ending.RolledBack?
    ensures var s, t := After(ls), After(ls + [Commit(x, ending)]);
      && x in t.rows && t.rows[x].state.Active? && t.rows[x].session == s.flights[x].session
      && x in t.snapshotKeys && x !in t.flights && StoredWhole(t, x)
      && (s.flights[x].session in s.sessionKeys ==> Readable(t, x, n))
      && (x in t.doubts <==> ending.Ambiguous?)
  {
    var l := Commit(x, ending);
    var s := After(ls);
    var longer := Then(ls, l);
    AllAlongRuns(ls);
    AllAlongRuns(longer);
    assert x !in s.doubts;
    assert x !in s.rows;
    assert FlightStored(s, x);
    WholeStays(s, l, x);
    CommitWrites(s, x, ending);
    ReadableExactlyWithKeys(Next(s, l), x, n);
  }

  lemma CommitWrites(s: State, x: SnapshotId, ending: Ending)
    requires Enabled(s, Commit(x, ending)) && !ending.RolledBack? && x !in s.doubts
    ensures var t := Next(s, Commit(x, ending));
      && x in t.rows && t.rows[x] == Row(s.flights[x].session, Active) && x in t.snapshotKeys && x !in t.flights
      && t.sessionKeys == s.sessionKeys && (x in t.doubts <==> ending.Ambiguous?)
  {
  }

  /** An id that was issued, is in no capture and has no row never gets one. */
  lemma {:induction false} GoneForGood(s: State, ls: seq<Label>, x: SnapshotId)
    requires Inv(s) && x in s.used && x !in s.flights && x !in s.rows
    ensures x !in Runs.Exec(Next, s, ls).rows
    decreases |ls|
  {
    if ls != [] {
      var t := Next(s, ls[0]);
      InvKeeps(s, ls[0]);
      SessionsStay(s, ls[0], x);
      IdsStayUsed(s, ls[0]);
      GoneForGood(t, ls[1..], x);
    }
  }

  /** A capture can be given up at any point, and its snapshot is then never committed. */
  lemma AbortedIsNeverCommitted(ls: seq<Label>, x: SnapshotId, more: seq<Label>)
    requires x in After(ls).flights
    ensures var t := After(ls + [Abort(x)]);
      x !in t.flights && t.rows == After(ls).rows && x !in Runs.Exec(Next, t, more).rows
  {
    var longer := Then(ls, Abort(x));
    InvAlongRuns(ls);
    InvAlongRuns(longer);
    GoneForGood(After(longer), more, x);
  }

  // ---------------------------------------------------------------------------
  // Exactly when a queued deletion can still be completed

  ghost predicate CanComplete(s: State, x: SnapshotId) {
    exists more: seq<Label> :: Completed(Runs.Exec(Next, s, more), x)
  }

  ghost predicate CanBeMarked(s: State, x: SnapshotId) {
    exists more: seq<Label> :: Marked(Runs.Exec(Next, s, more), x)
  }

  predicate Completed(s: State, x: SnapshotId) {
    x in s.outbox && s.outbox[x]
  }

  predicate Marked(s: State, x: SnapshotId) {
    x in s.rows && s.rows[x].state.PhysicallyDeleted?
  }

  ghost predicate HasWorker(s: State, x: SnapshotId) {
    exists w :: w in s.workers && s.workers[w].forOutbox && s.workers[w].snapshot == x
  }

  /** Queued, with neither the manifest nor anyone who has read it. */
  ghost predicate Wedged(s: State, x: SnapshotId) {
    && KeysInv(s) && ErasureInv(s)
    && x in s.outbox && Manifest(x) !in s.objects && !HasWorker(s, x)
  }

  lemma WedgedStep(s: State, l: Label, x: SnapshotId)
    requires Wedged(s, x)
    ensures Wedged(Next(s, l), x)
    ensures Completed(Next(s, l), x) <==> Completed(s, x)
    ensures Marked(Next(s, l), x) <==> Marked(s, x)
  {
    KeysKeep(s, l);
    ErasureKeeps(s, l);
    NoNewObject(s, l, x);
    WedgedStays(s, l, x);
    TablesPassed(s, l, x, WasCompleted);
    TablesPassed(s, l, x, WasMarked);
  }

  lemma WedgedStays(s: State, l: Label, x: SnapshotId)
    requires Wedged(s, x)
    ensures x in Next(s, l).outbox && !HasWorker(Next(s, l), x)
  {
    OutboxAndDoubtsGrow(s, l);
    if MovesWorker(l) {
      NoNewWorker(s, l, x);
    } else {
      WorkersSame(s, l);
    }
  }

  lemma NoNewWorker(s: State, l: Label, x: SnapshotId)
    requires Wedged(s, x) && MovesWorker(l)
    ensures !HasWorker(Next(s, l), x)
  {
    var t := Next(s, l);
    forall w | w in t.workers ensures !(t.workers[w].forOutbox && t.workers[w].snapshot == x) {
      assert w in s.workers ==> !(s.workers[w].forOutbox && s.workers[w].snapshot == x);
    }
  }

  lemma {:induction false} WedgedForever(s: State, ls: seq<Label>, x: SnapshotId)
    requires Wedged(s, x)
    ensures var t := Runs.Exec(Next, s, ls);
      Wedged(t, x) && (Completed(t, x) <==> Completed(s, x)) && (Marked(t, x) <==> Marked(s, x))
    decreases |ls|
  {
    if ls != [] {
      WedgedStep(s, ls[0], x);
      WedgedForever(Next(s, ls[0]), ls[1..], x);
    }
  }

  /** What is left for a worker to do. */
  function WorkLeft(k: Worker): nat {
    |k.left| + (if k.gone then 0 else 1)
  }

  /** A worker that is left alone completes its row, and then marks the snapshot physically deleted. */
  lemma {:induction false} WorkerCompletes(s: State, w: WorkerId) returns (more: seq<Label>)
    requires w in s.workers && s.workers[w].forOutbox && s.workers[w].snapshot in s.outbox && s.workers[w].snapshot in s.rows
    requires s.workers[w].gone ==> s.workers[w].left == []
    ensures Completed(Runs.Exec(Next, s, more), s.workers[w].snapshot)
    ensures Marked(Runs.Exec(Next, s, more + [MarkPhysical(w)]), s.workers[w].snapshot)
    decreases WorkLeft(s.workers[w])
  {
    var k := s.workers[w];
    if k.left == [] && k.gone {
      more := [Complete(w)];
      assert more[1..] == [];
      assert more == [] + [Complete(w)];
      Runs.ExecSnoc(Next, s, [], Complete(w));
      Runs.ExecSnoc(Next, s, more, MarkPhysical(w));
    } else {
      var l := if k.left != [] then DeleteArtifact(w) else DeleteManifest(w);
      var rest := WorkerCompletes(Next(s, l), w);
      more := [l] + rest;
      assert more[1..] == rest && more + [MarkPhysical(w)] == [l] + (rest + [MarkPhysical(w)]);
      assert ([l] + (rest + [MarkPhysical(w)]))[1..] == rest + [MarkPhysical(w)];
    }
  }

  lemma {:induction false} FreshWorker(ws: set<WorkerId>) returns (w: WorkerId)
    ensures w !in ws && forall v :: v in ws ==> v < w
    decreases |ws|
  {
    w := 0;
    if ws != {} {
      var v :| v in ws;
      var u := FreshWorker(ws - {v});
      w := if u <= v then v + 1 else u;
      forall x | x in ws ensures x < w {
        assert x == v || x in ws - {v};
      }
    }
  }

  /** A worker for this row is alive, or can be, to complete and mark it. */
  lemma WorkerFinishes(s: State, x: SnapshotId) returns (more: seq<Label>, w: WorkerId)
    requires Inv(s) && DeletionInv(s) && x in s.outbox
    requires HasWorker(s, x) || (Manifest(x) in s.objects && !s.outbox[x])
    ensures Completed(Runs.Exec(Next, s, more), x)
    ensures Marked(Runs.Exec(Next, s, more + [MarkPhysical(w)]), x)
  {
    if HasWorker(s, x) {
      w :| w in s.workers && s.workers[w].forOutbox && s.workers[w].snapshot == x;
      assert WorkerInv(s, s.workers[w]);
      more := WorkerCompletes(s, w);
    } else {
      w := FreshWorker(s.workers.Keys);
      var l := ReadManifest(w, x, true);
      var rest := WorkerCompletes(Next(s, l), w);
      more := [l] + rest;
      assert more[1..] == rest && (more + [MarkPhysical(w)])[1..] == rest + [MarkPhysical(w)];
    }
  }

  /**
   On every run, a queued deletion can still be completed, and its snapshot marked
   physically deleted, if and only if the manifest is in the store or a worker that has
   read it for the outbox is alive.
   */
  lemma CompletesExactlyWithManifestOrWorker(ls: seq<Label>, x: SnapshotId)
    requires x in After(ls).outbox
    ensures var s := After(ls); var able := Manifest(x) in s.objects || HasWorker(s, x);
      && (!Completed(s, x) ==> (CanComplete(s, x) <==> able))
      && (!Marked(s, x) ==> (CanBeMarked(s, x) <==> able))
  {
    var s := After(ls);
    AllAlongRuns(ls);
    if Manifest(x) in s.objects || HasWorker(s, x) {
      var more, w := WorkerFinishes(s, x);
    } else {
      forall more: seq<Label>
        ensures Completed(Runs.Exec(Next, s, more), x) <==> Completed(s, x)
        ensures Marked(Runs.Exec(Next, s, more), x) <==> Marked(s, x)
      {
        WedgedForever(s, more, x);
      }
    }
  }

  /** A worker that dies between deleting the manifest and completing its row leaves a deletion that cannot be completed. */
  lemma DeletionCanBeWedged() returns (ls: seq<Label>)
    ensures Wedged(After(ls), 0) && !Completed(After(ls), 0)
  {
    ls := QueuedForDeletion();
    ls := WorkerDeletes(ls);
    InvAlongRuns(ls);
  }

  /** A committed snapshot that was then erased, with nobody deleting its objects yet. */
  lemma QueuedForDeletion() returns (ls: seq<Label>)
    ensures var s := After(ls); Manifest(0) in s.objects && s.workers == map[] && 0 in s.outbox && !s.outbox[0]
  {
    var before := CaptureReady();
    AllAlongRuns(before);
    assert FlightStored(After(before), 0);
    CommitLeavesSnapshot(before, 0, Committed, StateFile);
    ls := Then(before, Commit(0, Committed));
    IsNotQueued(ls);
    WorkersSame(After(before), Commit(0, Committed));
    var committed := ls;
    ls := Then(committed, EraseSnapshot(0));
    WorkersSame(After(committed), EraseSnapshot(0));
    ObjectsSame(After(committed), EraseSnapshot(0));
    EraseQueues(After(committed), 0);
  }

  lemma IsNotQueued(ls: seq<Label>)
    requires 0 in After(ls).rows && After(ls).rows[0].state.Active?
    ensures 0 !in After(ls).outbox
  {
    InvAlongRuns(ls);
  }

  lemma EraseQueues(s: State, x: SnapshotId)
    requires x in s.rows && x !in s.outbox
    ensures var t := Next(s, EraseSnapshot(x)); x in t.outbox && !t.outbox[x]
  {
  }

  /** The state of a lone worker for snapshot 0. */
  ghost predicate Lone(s: State, left: seq<Name>, gone: bool) {
    s.workers == map[0 := Worker(0, left, gone, true)] && 0 in s.outbox && !s.outbox[0]
  }

  lemma LoneDeletes(ls: seq<Label>, left: seq<Name>) returns (more: seq<Label>)
    requires Lone(After(ls), left, false) && left != []
    ensures Lone(After(more), left[1..], false)
  {
    more := Then(ls, DeleteArtifact(0));
  }

  lemma WorkerDeletes(ls: seq<Label>) returns (more: seq<Label>)
    requires var s := After(ls); Manifest(0) in s.objects && s.workers == map[] && 0 in s.outbox && !s.outbox[0]
    ensures var s := After(more); s.workers == map[] && 0 in s.outbox && !s.outbox[0] && Manifest(0) !in s.objects
  {
    more := Then(ls, ReadManifest(0, 0, true));
    assert Lone(After(more), [StateFile, MemoryFile], false);
    more := LoneDeletes(more, [StateFile, MemoryFile]);
    more := LoneDeletes(more, [StateFile, MemoryFile][1..]);
    more := LoneEnds(more, [StateFile, MemoryFile][1..][1..]);
  }

  lemma LoneEnds(ls: seq<Label>, left: seq<Name>) returns (more: seq<Label>)
    requires Lone(After(ls), left, false) && left == []
    ensures var s := After(more); s.workers == map[] && 0 in s.outbox && !s.outbox[0] && Manifest(0) !in s.objects
  {
    more := Then(ls, DeleteManifest(0));
    assert Lone(After(more), [], true) && Manifest(0) !in After(more).objects;
    more := Then(more, WorkerDies(0));
  }
}
