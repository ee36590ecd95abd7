/** build_receipt and compare_receipts of scripts/credential_boot_receipt.py: one lstat before and one after the
    checker's own, and what the recorded row may then be taken to say about the file. */
module Bracketing {
  import opened Wrappers

  // ---------------------------------------------------------------- files

  datatype Stat = Stat(dev: nat, ino: nat, mode: nat, size: nat, mtimeNs: int, ctimeNs: int, uid: nat)

  /** What an lstat of a path meets. */
  datatype Look = Present(stat: Stat) | Absent | Denied

  datatype Identity = Identity(dev: nat, ino: nat, mode: nat, size: nat, mtimeNs: int, ctimeNs: int)

  datatype Fingerprint = Fingerprint(mode: nat, size: nat, mtimeNs: int)

  function Observe(look: Look): Option<Stat> {
    if look.Present? then Some(look.stat) else None
  }

  function IdentityOf(info: Option<Stat>): Option<Identity> {
    match info
    case Some(s) => Some(Identity(s.dev, s.ino, s.mode, s.size, s.mtimeNs, s.ctimeNs))
    case None => None
  }

  /** stat.S_IMODE */
  function Permissions(mode: nat): nat {
    mode % 0x1000
  }

  function FingerprintOf(info: Option<Stat>): Option<Fingerprint> {
    match info
    case Some(s) => Some(Fingerprint(Permissions(s.mode), s.size, s.mtimeNs))
    case None => None
  }

  // ---------------------------------------------------------------- the checker's scan

  datatype RowState = Ok | Missing | Unsafe | Unchecked | NotLocal | Changed

  datatype Entry = Entry(id: string, status: string, kind: string)

  const LOCAL_KINDS := {"private_env_file", "private_file", "native_store"}
  const NONLOCAL_KINDS := {"interactive_login", "github_actions"}
  const GATED_STATUSES := {"required", "optional"}

  const LINK: nat := 10
  const REGULAR: nat := 8
  const PRIVATE: nat := 0x180   // 0600

  function FileType(mode: nat): nat {
    mode / 0x1000
  }

  /** The findings inspect_entry draws from the file itself. */
  function FileFindings(s: Stat, kind: string, uid: nat): seq<string> {
    (if FileType(s.mode) == LINK then ["symlink_refused"]
     else if FileType(s.mode) != REGULAR then ["not_regular_file"] else [])
    + (if kind == "native_store"
       then (if Permissions(s.mode) % 0x40 != 0 then ["group_or_other_access"] else [])
       else if Permissions(s.mode) != PRIVATE then ["mode_not_0600"] else [])
    + (if s.uid != uid then ["foreign_owner"] else [])
  }

  /** inspect_entry without the store-line check, which boot receipts switch off; surroundings are the findings drawn
      from the file's directory and from git. */
  function InspectEntry(e: Entry, look: Look, surroundings: seq<string>, uid: nat): (RowState, seq<string>) {
    if e.kind in NONLOCAL_KINDS then (NotLocal, [])
    else if e.kind !in LOCAL_KINDS then (Unchecked, [])
    else match look
      case Absent => (Missing, [])
      case Denied => (Unsafe, ["cannot_stat"])
      case Present(s) =>
        var findings := FileFindings(s, e.kind, uid) + surroundings;
        (if findings != [] then Unsafe else Ok, findings)
  }

  // ---------------------------------------------------------------- build_receipt

  /** What the three lstat calls on one file meet, in order. */
  datatype Sighting = Sighting(before: Look, scan: Look, after: Look, surroundings: seq<string>)

  /** fingerprint is None for a row that is no file's. */
  datatype Row = Row(id: string, status: string, kind: string, state: RowState, findings: seq<string>,
                     fingerprint: Option<Option<Fingerprint>>)

  datatype Receipt = Receipt(rows: seq<Row>, result: RowState)

  const ELSEWHERE := Sighting(Absent, Absent, Absent, [])

  function SightOf(sights: map<string, Sighting>, id: string): Sighting {
    if id in sights then sights[id] else ELSEWHERE
  }

  function RowOf(e: Entry, s: Sighting, uid: nat): Row {
    var (state, findings) := InspectEntry(e, s.scan, s.surroundings, uid);
    if e.kind !in LOCAL_KINDS then Row(e.id, e.status, e.kind, state, findings, None)
    else
      var moved := IdentityOf(Observe(s.before)) != IdentityOf(Observe(s.after));
      Row(e.id, e.status, e.kind, if moved then Changed else state, findings, Some(FingerprintOf(Observe(s.after))))
  }

  function ScanState(e: Entry, sights: map<string, Sighting>, uid: nat): RowState {
    InspectEntry(e, SightOf(sights, e.id).scan, SightOf(sights, e.id).surroundings, uid).0
  }

  method BuildReceipt(entries: seq<Entry>, sights: map<string, Sighting>, uid: nat) returns (r: Receipt)
    ensures |r.rows| == |entries|
    ensures forall i | 0 <= i < |entries| :: r.rows[i] == RowOf(entries[i], SightOf(sights, entries[i].id), uid)
    ensures r.result == Unsafe <==> exists i | 0 <= i < |entries| :: ScanState(entries[i], sights, uid) == Unsafe
    ensures r.result == Changed <==> r.result != Unsafe && exists i | 0 <= i < |entries| :: r.rows[i].state == Changed
    ensures r.result in {Ok, Changed, Unsafe}
  {
    var rows: seq<Row> := [];
    var unsafe, changed := false, false;
    for i := 0 to |entries|
      invariant |rows| == i
      invariant forall j | 0 <= j < i :: rows[j] == RowOf(entries[j], SightOf(sights, entries[j].id), uid)
      invariant unsafe <==> exists j | 0 <= j < i :: ScanState(entries[j], sights, uid) == Unsafe
      invariant changed <==> exists j | 0 <= j < i :: rows[j].state == Changed
    {
      var row := RowOf(entries[i], SightOf(sights, entries[i].id), uid);
      unsafe := unsafe || ScanState(entries[i], sights, uid) == Unsafe;
      changed := changed || row.state == Changed;
      rows := rows + [row];
    }
    r := Receipt(rows, if unsafe then Unsafe else if changed then Changed else Ok);
  }

  // ---------------------------------------------------------------- what an unmarked row says

  /** What a path holds, moment by moment. */
  type History = seq<Look>

  predicate Still(h: History, from: nat, to: nat)
    requires from <= to < |h|
  {
    forall t | from <= t <= to :: h[t] == h[from]
  }

  /** Every change gives the file a fresh identity: what appears at a moment, and was not there the moment before, has
      an identity that nothing earlier at that path had. */
  predicate Fresh(h: History) {
    forall t | 0 < t < |h| && h[t].Present? && h[t] != h[t - 1] :: NewIdentity(h, t)
  }

  predicate NewIdentity(h: History, t: nat)
    requires t < |h|
  {
    forall i | 0 <= i < t && h[i].Present? :: IdentityOf(Observe(h[i])) != IdentityOf(Observe(h[t]))
  }

  /** Then the same identity at two moments means no change between them. */
  lemma {:induction false} SameIdentityIsStill(h: History, i: nat, j: nat)
    requires Fresh(h) && i <= j < |h| && h[i].Present? && h[j].Present?
    requires IdentityOf(Observe(h[i])) == IdentityOf(Observe(h[j]))
    ensures Still(h, i, j)
    decreases j
  {
    if i < j {
      assert h[j] != h[j - 1] ==> NewIdentity(h, j);
      SameIdentityIsStill(h, i, j - 1);
    }
  }

  /** The three observations of one record, at three moments of the path's history. */
  predicate Sights(h: History, b: nat, s: nat, a: nat, sight: Sighting) {
    b <= s <= a < |h| && sight.before == h[b] && sight.scan == h[s] && sight.after == h[a]
  }

  /** The state and the fingerprint describe one and the same version of the file, or both describe its absence. */
  predicate OneVersion(sight: Sighting) {
    sight.scan == sight.after || (!sight.scan.Present? && !sight.after.Present?)
  }

  /** A surroundings finding is about the directory or about git. */
  predicate AboutSurroundings(findings: seq<string>) {
    forall f | f in findings :: f != "cannot_stat"
  }

  /** A row that is not marked and carries a fingerprint describes one version of the file, which was in place,
      unchanged, from the first observation to the last. */
  lemma UnmarkedFingerprintIsOneVersion(e: Entry, uid: nat, h: History, b: nat, s: nat, a: nat, sight: Sighting)
    requires e.kind in LOCAL_KINDS && Fresh(h) && Sights(h, b, s, a, sight)
    requires var row := RowOf(e, sight, uid); row.state != Changed && row.fingerprint.value.Some?
    ensures Still(h, b, a) && sight.scan.Present?
    ensures var row := RowOf(e, sight, uid);
      && row.fingerprint == Some(FingerprintOf(Some(h[s].stat)))
      && (row.state == Ok <==> FileFindings(h[s].stat, e.kind, uid) + sight.surroundings == [])
  {
    SameIdentityIsStill(h, b, a);
    assert h[s] == h[b];
  }

  /** Exactly when an unmarked row describes one version: when it carries a fingerprint, or when its own state says
      that the scan met no file either. */
  lemma UnmarkedRowIsSoundExactlyWhen(e: Entry, uid: nat, h: History, b: nat, s: nat, a: nat, sight: Sighting)
    requires e.kind in LOCAL_KINDS && Fresh(h) && Sights(h, b, s, a, sight)
    requires RowOf(e, sight, uid).state != Changed && AboutSurroundings(sight.surroundings)
    ensures var row := RowOf(e, sight, uid);
      OneVersion(sight) <==> row.fingerprint.value.Some? || row.state == Missing || row.findings == ["cannot_stat"]
  {
    var row := RowOf(e, sight, uid);
    if row.fingerprint.value.Some? {
      UnmarkedFingerprintIsOneVersion(e, uid, h, b, s, a, sight);
    } else if sight.scan.Present? {
      FileFindingsAreNotDenials(sight.scan.stat, e.kind, uid, sight.surroundings);
    }
  }

  lemma FileFindingsAreNotDenials(stat: Stat, kind: string, uid: nat, surroundings: seq<string>)
    requires AboutSurroundings(surroundings)
    ensures FileFindings(stat, kind, uid) + surroundings != ["cannot_stat"]
  {
    var own, all := FileFindings(stat, kind, uid), FileFindings(stat, kind, uid) + surroundings;
    assert forall i | 0 <= i < |own| :: own[i] != "cannot_stat";
    assert forall i | 0 <= i < |all| :: all[i] in own || all[i] in surroundings;
    assert |all| == 1 ==> all[0] != ["cannot_stat"][0];
  }

  /** Absent, present, absent: the row stays unmarked, says ok of a file that is gone, and carries no fingerprint. */
  lemma AppearingFileIsMissed(e: Entry, uid: nat, stat: Stat)
    requires e.kind in LOCAL_KINDS && FileFindings(stat, e.kind, uid) == []
    ensures var h := [Absent, Present(stat), Absent];
      var sight := Sighting(Absent, Present(stat), Absent, []);
      && Fresh(h) && Sights(h, 0, 1, 2, sight) && !OneVersion(sight)
      && RowOf(e, sight, uid) == Row(e.id, e.status, e.kind, Ok, [], Some(None))
  {
  }

  /** An ok row with a fingerprint of a private file records mode 0600: the fingerprint is that of the very file the
      scan approved. */
  lemma OkFingerprintIsPrivate(e: Entry, uid: nat, h: History, b: nat, s: nat, a: nat, sight: Sighting)
    requires e.kind in LOCAL_KINDS && e.kind != "native_store" && Fresh(h) && Sights(h, b, s, a, sight)
    requires RowOf(e, sight, uid).state == Ok && RowOf(e, sight, uid).fingerprint.value.Some?
    ensures RowOf(e, sight, uid).fingerprint.value.value.mode == PRIVATE
  {
    UnmarkedFingerprintIsOneVersion(e, uid, h, b, s, a, sight);
    var own := FileFindings(h[s].stat, e.kind, uid);
    assert own + sight.surroundings == [] ==> |own| == 0;
  }

  // ---------------------------------------------------------------- compare_receipts

  predicate Regressed(before: Row, after: Option<Row>) {
    && before.status in GATED_STATUSES && before.kind in LOCAL_KINDS
    && before.state == Ok && (after.None? || after.value.state != Ok)
  }

  predicate UniqueIds(rows: seq<Row>) {
    forall i, j | 0 <= i < j < |rows| :: rows[i].id != rows[j].id
  }

  /** The rows, to be looked up by their id. */
  method ById(rows: seq<Row>) returns (m: map<string, Row>)
    requires UniqueIds(rows)
    ensures forall i | 0 <= i < |rows| :: rows[i].id in m && m[rows[i].id] == rows[i]
    ensures forall id | id in m :: exists i | 0 <= i < |rows| :: rows[i].id == id
  {
    m := map[];
    for i := 0 to |rows|
      invariant forall j | 0 <= j < i :: rows[j].id in m && m[rows[j].id] == rows[j]
      invariant forall id | id in m :: exists j | 0 <= j < i :: rows[j].id == id
    {
      m := m[rows[i].id := rows[i]];
    }
  }

  /** The ids of the older rows, in their order, that regressed. */
  function Regressions(older: seq<Row>, newer: seq<Row>): seq<string> {
    if older == [] then []
    else
      var row := older[|older| - 1];
      Regressions(older[..|older| - 1], newer) + if Regressed(row, RowWith(newer, row.id)) then [row.id] else []
  }

  function RowWith(rows: seq<Row>, id: string): Option<Row> {
    if rows == [] then None
    else if rows[|rows| - 1].id == id then Some(rows[|rows| - 1]) else RowWith(rows[..|rows| - 1], id)
  }

  lemma {:induction false} RowWithFinds(rows: seq<Row>, i: nat)
    requires UniqueIds(rows) && i < |rows|
    ensures RowWith(rows, rows[i].id) == Some(rows[i])
  {
    if i < |rows| - 1 {
      RowWithFinds(rows[..|rows| - 1], i);
    }
  }

  lemma {:induction false} RowWithIsThere(rows: seq<Row>, id: string)
    ensures RowWith(rows, id).Some? <==> exists i | 0 <= i < |rows| :: rows[i].id == id
    ensures RowWith(rows, id).Some? ==> RowWith(rows, id).value in rows && RowWith(rows, id).value.id == id
  {
    if rows != [] {
      var init := rows[..|rows| - 1];
      RowWithIsThere(init, id);
      assert forall i | 0 <= i < |init| :: rows[i] == init[i];
    }
  }

  method CompareReceipts(older: seq<Row>, newer: seq<Row>) returns (regressions: seq<string>)
    requires UniqueIds(older) && UniqueIds(newer)
    ensures regressions == Regressions(older, newer)
  {
    var beforeRows := ById(older);
    var afterRows := ById(newer);
    regressions := [];
    for i := 0 to |older|
      invariant regressions == Regressions(older[..i], newer)
    {
      var id := older[i].id;
      RowWithIsThere(newer, id);
      if id in afterRows {
        var j :| 0 <= j < |newer| && newer[j].id == id;
        RowWithFinds(newer, j);
      }
      var after := if id in afterRows then Some(afterRows[id]) else None;
      assert older[..i + 1][..i] == older[..i];
      if Regressed(beforeRows[id], after) {
        regressions := regressions + [id];
      }
    }
    assert older[..|older|] == older;
  }

  /** compare exits 1 exactly when some required or optional file row that was ok is gone or no longer ok. */
  lemma {:induction false} RegressionsAreExact(older: seq<Row>, newer: seq<Row>, id: string)
    ensures id in Regressions(older, newer)
      <==> exists i | 0 <= i < |older| :: older[i].id == id && Regressed(older[i], RowWith(newer, id))
  {
    if older != [] {
      var init := older[..|older| - 1];
      RegressionsAreExact(init, newer, id);
      assert forall i | 0 <= i < |init| :: older[i] == init[i];
    }
  }

  /** When compare finds no regression, every gated file row that was ok has a new ok row; and if that row carries a
      fingerprint, the file it names was in place, unchanged, throughout the newer record. */
  lemma NoRegressionMeansInPlace(older: seq<Row>, newer: seq<Row>, i: nat, e: Entry, uid: nat, h: History,
                                 b: nat, s: nat, a: nat, sight: Sighting)
    requires Regressions(older, newer) == [] && i < |older|
    requires older[i].status in GATED_STATUSES && older[i].kind in LOCAL_KINDS && older[i].state == Ok
    requires e.id == older[i].id && e.kind in LOCAL_KINDS && Fresh(h) && Sights(h, b, s, a, sight)
    requires forall row | row in newer && row.id == e.id :: row == RowOf(e, sight, uid)
    ensures RowWith(newer, e.id) == Some(RowOf(e, sight, uid)) && RowOf(e, sight, uid).state == Ok
    ensures h[s].Present?
    ensures RowOf(e, sight, uid).fingerprint.value.Some? ==> Still(h, b, a)
  {
    RegressionsAreExact(older, newer, e.id);
    RowWithIsThere(newer, e.id);
    if RowOf(e, sight, uid).fingerprint.value.Some? {
      UnmarkedFingerprintIsOneVersion(e, uid, h, b, s, a, sight);
    }
  }

  /** A file that changed while it was recorded, or went missing, is a regression of a gated row that was ok. */
  lemma ChangedIsARegression(older: seq<Row>, newer: seq<Row>, i: nat, e: Entry, uid: nat, sight: Sighting)
    requires i < |older| && older[i].status in GATED_STATUSES && older[i].kind in LOCAL_KINDS && older[i].state == Ok
    requires UniqueIds(newer) && RowOf(e, sight, uid) in newer && e.id == older[i].id && e.kind in LOCAL_KINDS
    requires IdentityOf(Observe(sight.before)) != IdentityOf(Observe(sight.after)) || sight.scan == Absent
    ensures e.id in Regressions(older, newer)
  {
    RegressionsAreExact(older, newer, e.id);
    var j :| 0 <= j < |newer| && newer[j] == RowOf(e, sight, uid);
    RowWithFinds(newer, j);
  }
}
