/** The cache that lets the wrapper skip hashing a binary it has already verified.

    A record names the file by inode, size and timestamps. Between any two steps of the wrapper,
    others may rewrite, touch, create, free or re-point files; every change of a file stamps its
    ctime with a clock that lags by less than `GRAIN`, while its mtime can be set at will. */
module Attestation {
  import opened Install
  import opened Options

  /** Two seconds, in nanoseconds. */
  const GRAIN: nat := 2_000_000_000

  datatype Inode = Inode(bytes: string, mtime: nat, ctime: nat)

  /** `target` is the inode the binary's path names. */
  datatype Disk = Disk(inodes: map<nat, Inode>, target: Option<nat>, clock: nat)

  datatype Identity = Identity(ino: nat, size: nat, mtime: nat, ctime: nat)

  datatype Attested = Attested(identity: Identity, sha256: string, version: string, versionChecked: bool, at: nat)

  datatype Change =
    | Rewrite(ino: nat, bytes: string, mtime: nat, stamp: nat)
    | Touch(ino: nat, mtime: nat, stamp: nat)
    | Create(ino: nat, bytes: string, mtime: nat, stamp: nat)
    | Free(ino: nat)
    | Point(ino: nat)
    | Unlink
    | Tick(ticks: nat)

  predicate Timely(stamp: nat, clock: nat) {
    stamp <= clock < stamp + GRAIN
  }

  /** A change that is not possible here changes nothing. */
  function Changed(d: Disk, c: Change): Disk {
    match c
    case Rewrite(ino, bytes, mtime, stamp) =>
      if ino in d.inodes && Timely(stamp, d.clock) then d.(inodes := d.inodes[ino := Inode(bytes, mtime, stamp)]) else d
    case Touch(ino, mtime, stamp) =>
      if ino in d.inodes && Timely(stamp, d.clock)
      then d.(inodes := d.inodes[ino := d.inodes[ino].(mtime := mtime, ctime := stamp)]) else d
    case Create(ino, bytes, mtime, stamp) =>
      if ino !in d.inodes && Timely(stamp, d.clock) then d.(inodes := d.inodes[ino := Inode(bytes, mtime, stamp)]) else d
    case Free(ino) => if d.target == Some(ino) then d else d.(inodes := d.inodes - {ino})
    case Point(ino) => if ino in d.inodes then d.(target := Some(ino)) else d
    case Unlink => d.(target := None)
    case Tick(ticks) => d.(clock := d.clock + ticks)
  }

  function AllChanged(d: Disk, changes: seq<Change>): Disk
    decreases |changes|
  {
    if changes == [] then d else AllChanged(Changed(d, changes[0]), changes[1..])
  }

  // ----- identities -----

  predicate Present(d: Disk) {
    d.target.Some? && d.target.value in d.inodes
  }

  function IdentityOf(d: Disk): Identity
    requires Present(d)
  {
    var f := d.inodes[d.target.value];
    Identity(d.target.value, |f.bytes|, f.mtime, f.ctime)
  }

  /** Inode zero cannot establish identity, so it never matches. */
  predicate SameIdentity(a: Identity, b: Identity) {
    a.ino != 0 && a == b
  }

  predicate IdentitySettledAt(identity: Identity, at: nat) {
    var newest := if identity.mtime > identity.ctime then identity.mtime else identity.ctime;
    newest + GRAIN <= at
  }

  /** The specification: hash the file the path names. */
  predicate HashMatches(host: Host, d: Disk, manifest: Record) {
    Present(d) && host.hash(d.inodes[d.target.value].bytes) == manifest.sha256
  }

  predicate VersionMatches(host: Host, d: Disk) {
    Present(d) && host.reports(d.inodes[d.target.value].bytes) == host.version
  }

  /** The record is accepted for this manifest and the file as it is right now. */
  predicate Accepts(host: Host, d: Disk, record: Option<Attested>, manifest: Record) {
    && record.Some? && Present(d)
    && record.value.version == host.version && manifest.version == host.version
    && record.value.sha256 == manifest.sha256
    && IdentitySettledAt(record.value.identity, record.value.at)
    && SameIdentity(record.value.identity, IdentityOf(d))
  }

  // ----- soundness of a record -----

  predicate Vouches(host: Host, r: Attested, bytes: string) {
    host.hash(bytes) == r.sha256 && (r.versionChecked ==> host.reports(bytes) == r.version)
  }

  /** The attested inode is still what was attested, or a later ctime betrays that it changed. */
  predicate Tracks(host: Host, d: Disk, r: Attested) {
    && IdentitySettledAt(r.identity, r.at) && r.at <= d.clock
    && (r.identity.ino in d.inodes && d.inodes[r.identity.ino].ctime <= r.identity.ctime ==>
        Vouches(host, r, d.inodes[r.identity.ino].bytes))
  }

  predicate Sound(host: Host, d: Disk, record: Option<Attested>) {
    record.Some? ==> Tracks(host, d, record.value)
  }

  lemma TracksChanged(host: Host, d: Disk, r: Attested, c: Change)
    requires Tracks(host, d, r)
    ensures Tracks(host, Changed(d, c), r)
  {
  }

  /** Whatever is done to the files afterwards, a sound record stays sound. */
  lemma {:induction false} TracksForever(host: Host, d: Disk, r: Attested, changes: seq<Change>)
    requires Tracks(host, d, r)
    ensures Tracks(host, AllChanged(d, changes), r)
    decreases |changes|
  {
    if changes != [] {
      TracksChanged(host, d, r, changes[0]);
      TracksForever(host, Changed(d, changes[0]), r, changes[1..]);
    }
  }

  lemma SoundForever(host: Host, d: Disk, record: Option<Attested>, changes: seq<Change>)
    requires Sound(host, d, record)
    ensures Sound(host, AllChanged(d, changes), record)
  {
    if record.Some? {
      TracksForever(host, d, record.value, changes);
    }
  }

  /** Accepting a sound record answers what hashing would. */
  lemma AcceptedMatches(host: Host, d: Disk, record: Option<Attested>, manifest: Record)
    requires Sound(host, d, record) && Accepts(host, d, record, manifest)
    ensures HashMatches(host, d, manifest)
    ensures record.value.versionChecked ==> VersionMatches(host, d)
  {
  }

  // ----- when attesting is sound -----

  /** The inode keeps the captured ctime only while its contents stay what they were. */
  predicate Pinned(d: Disk, ino: nat, ctime: nat, bytes: string) {
    ino in d.inodes && d.inodes[ino].ctime <= ctime ==> d.inodes[ino].bytes == bytes
  }

  lemma PinnedChanged(d: Disk, c: Change, ino: nat, ctime: nat, bytes: string)
    requires Pinned(d, ino, ctime, bytes) && ctime + GRAIN <= d.clock
    ensures Pinned(Changed(d, c), ino, ctime, bytes) && ctime + GRAIN <= Changed(d, c).clock
  {
  }

  lemma {:induction false} PinnedForever(d: Disk, changes: seq<Change>, ino: nat, ctime: nat, bytes: string)
    requires Pinned(d, ino, ctime, bytes) && ctime + GRAIN <= d.clock
    ensures Pinned(AllChanged(d, changes), ino, ctime, bytes)
    decreases |changes|
  {
    if changes != [] {
      PinnedChanged(d, changes[0], ino, ctime, bytes);
      PinnedForever(Changed(d, changes[0]), changes[1..], ino, ctime, bytes);
    }
  }

  lemma {:induction false} ClockAdvances(d: Disk, changes: seq<Change>)
    ensures d.clock <= AllChanged(d, changes).clock
    decreases |changes|
  {
    if changes != [] {
      ClockAdvances(Changed(d, changes[0]), changes[1..]);
    }
  }

  /** What others do while one verification runs: before the identity is captured, before the
      file is hashed, before the identity is captured again, before the clock is read. */
  datatype Gaps = Gaps(capture: seq<Change>, hash: seq<Change>, again: seq<Change>, clock: seq<Change>)

  function AtCapture(d: Disk, g: Gaps): Disk {
    AllChanged(d, g.capture)
  }

  function AtHash(d: Disk, g: Gaps): Disk {
    AllChanged(AtCapture(d, g), g.hash)
  }

  function AtAgain(d: Disk, g: Gaps): Disk {
    AllChanged(AtHash(d, g), g.again)
  }

  function AtClock(d: Disk, g: Gaps): Disk {
    AllChanged(AtAgain(d, g), g.clock)
  }

  /** The record one full verification writes, if it writes one. */
  function AttestedBy(host: Host, d: Disk, g: Gaps, manifest: Record): Option<Attested> {
    var capture, hash, again, clock := AtCapture(d, g), AtHash(d, g), AtAgain(d, g), AtClock(d, g);
    if Present(capture) && HashMatches(host, hash, manifest) && Present(again)
       && SameIdentity(IdentityOf(capture), IdentityOf(again))
       && manifest.version == host.version && IdentitySettledAt(IdentityOf(capture), clock.clock)
    then Some(Attested(IdentityOf(capture), manifest.sha256, host.version, false, clock.clock))
    else None
  }

  predicate OnlyTicks(changes: seq<Change>) {
    forall c | c in changes :: c.Tick?
  }

  /** The path goes on naming the same inode. */
  predicate Stays(changes: seq<Change>) {
    forall c | c in changes :: !c.Point? && !c.Unlink?
  }

  lemma {:induction false} TicksKeepFiles(d: Disk, changes: seq<Change>)
    requires OnlyTicks(changes)
    ensures AllChanged(d, changes) == d.(clock := AllChanged(d, changes).clock)
    decreases |changes|
  {
    if changes != [] {
      assert changes[0] in changes && forall c | c in changes[1..] :: c in changes;
      TicksKeepFiles(Changed(d, changes[0]), changes[1..]);
    }
  }

  lemma {:induction false} StaysKeepsTarget(d: Disk, changes: seq<Change>)
    requires Stays(changes)
    ensures AllChanged(d, changes).target == d.target
    decreases |changes|
  {
    if changes != [] {
      assert changes[0] in changes && forall c | c in changes[1..] :: c in changes;
      StaysKeepsTarget(Changed(d, changes[0]), changes[1..]);
    }
  }

  /** Once its ctime has moved past a settled one it never comes back to it. */
  predicate Drifted(d: Disk, ino: nat, ctime: nat) {
    ino in d.inodes ==> d.inodes[ino].ctime > ctime
  }

  lemma {:induction false} DriftedForever(d: Disk, changes: seq<Change>, ino: nat, ctime: nat)
    requires Drifted(d, ino, ctime) && ctime + GRAIN <= d.clock
    ensures Drifted(AllChanged(d, changes), ino, ctime)
    decreases |changes|
  {
    if changes != [] {
      assert Drifted(Changed(d, changes[0]), ino, ctime);
      DriftedForever(Changed(d, changes[0]), changes[1..], ino, ctime);
    }
  }

  /** A record is sound when nothing changed between the hash and the clock reading. */
  lemma QuietAttestationIsSound(host: Host, d: Disk, g: Gaps, manifest: Record)
    requires OnlyTicks(g.again) && OnlyTicks(g.clock)
    ensures Sound(host, AtClock(d, g), AttestedBy(host, d, g, manifest))
  {
    TicksKeepFiles(AtHash(d, g), g.again);
    TicksKeepFiles(AtAgain(d, g), g.clock);
  }

  /** A record is sound, whatever is done to the file meanwhile, when its ctime had settled at the
      capture and the path still named it when it was hashed. */
  lemma SettledAttestationIsSound(host: Host, d: Disk, g: Gaps, manifest: Record)
    requires Present(AtCapture(d, g)) && IdentityOf(AtCapture(d, g)).ctime + GRAIN <= AtCapture(d, g).clock
    requires AtHash(d, g).target == AtCapture(d, g).target
    ensures Sound(host, AtClock(d, g), AttestedBy(host, d, g, manifest))
  {
    var capture, hash := AtCapture(d, g), AtHash(d, g);
    var i := IdentityOf(capture);
    var bytes := capture.inodes[i.ino].bytes;
    PinnedForever(capture, g.hash, i.ino, i.ctime, bytes);
    ClockAdvances(capture, g.hash);
    PinnedForever(hash, g.again, i.ino, i.ctime, bytes);
    ClockAdvances(hash, g.again);
    PinnedForever(AtAgain(d, g), g.clock, i.ino, i.ctime, bytes);
    if Drifted(hash, i.ino, i.ctime) {
      DriftedForever(hash, g.again, i.ino, i.ctime);
    }
  }

  /** The captured inode still is what it was at the capture. */
  predicate Unmoved(d: Disk, i: Identity) {
    i.ino in d.inodes && d.inodes[i.ino].ctime <= i.ctime
  }

  /** When the ctime had settled at the capture, whatever is done meanwhile, re-pointing the path
      included, a written record is sound exactly when the captured file itself had the manifest's
      digest, or its inode has gone or moved on since. */
  lemma SettledSoundExactly(host: Host, d: Disk, g: Gaps, manifest: Record)
    requires Present(AtCapture(d, g)) && IdentityOf(AtCapture(d, g)).ctime + GRAIN <= AtCapture(d, g).clock
    requires AttestedBy(host, d, g, manifest).Some?
    ensures Sound(host, AtClock(d, g), AttestedBy(host, d, g, manifest)) <==>
            HashMatches(host, AtCapture(d, g), manifest) || !Unmoved(AtClock(d, g), IdentityOf(AtCapture(d, g)))
  {
    var capture := AtCapture(d, g);
    var i := IdentityOf(capture);
    var bytes := capture.inodes[i.ino].bytes;
    PinnedForever(capture, g.hash, i.ino, i.ctime, bytes);
    ClockAdvances(capture, g.hash);
    PinnedForever(AtHash(d, g), g.again, i.ino, i.ctime, bytes);
    ClockAdvances(AtHash(d, g), g.again);
    PinnedForever(AtAgain(d, g), g.clock, i.ino, i.ctime, bytes);
  }

  /** The interference that defeats an unsettled capture: a rewrite within the same tick, after the
      hash, that puts size and mtime back; then waiting until the timestamps look settled. */
  function SameTick(d: Disk, other: string): Gaps
    requires Present(d)
  {
    var i := IdentityOf(d);
    Gaps([], [], [Rewrite(i.ino, other, i.mtime, i.ctime)], [Tick(i.mtime + i.ctime + GRAIN)])
  }

  lemma SameTickIsUnsound(host: Host, d: Disk, manifest: Record, other: string)
    requires HashMatches(host, d, manifest) && d.target != Some(0) && manifest.version == host.version
    requires Timely(IdentityOf(d).ctime, d.clock)
    requires |other| == IdentityOf(d).size && host.hash(other) != manifest.sha256
    ensures var g := SameTick(d, other);
      Stays(g.hash) && AttestedBy(host, d, g, manifest).Some?
      && !Sound(host, AtClock(d, g), AttestedBy(host, d, g, manifest))
  {
    var g := SameTick(d, other);
    assert AtCapture(d, g) == d && AtHash(d, g) == d;
    OneChange(d, g.again[0]);
    OneChange(AtAgain(d, g), g.clock[0]);
  }

  lemma OneChange(d: Disk, c: Change)
    ensures AllChanged(d, [c]) == Changed(d, c)
  {
    assert [c][1..] == [];
    assert AllChanged(Changed(d, c), []) == Changed(d, c);
  }

  ghost predicate SafeCapture(host: Host, d: Disk, manifest: Record) {
    forall g: Gaps | g.capture == [] && Stays(g.hash) :: Sound(host, AtClock(d, g), AttestedBy(host, d, g, manifest))
  }

  /** Attesting the file the path names is safe against every interference that leaves the path
      alone exactly when the file's ctime is at least one grain old at the capture. */
  lemma SafeExactlyWhenSettled(host: Host, d: Disk, manifest: Record, other: string)
    requires HashMatches(host, d, manifest) && d.target != Some(0) && manifest.version == host.version
    requires IdentityOf(d).ctime <= d.clock
    requires |other| == IdentityOf(d).size && host.hash(other) != manifest.sha256
    ensures SafeCapture(host, d, manifest) <==> IdentityOf(d).ctime + GRAIN <= d.clock
  {
    if IdentityOf(d).ctime + GRAIN <= d.clock {
      forall g: Gaps | g.capture == [] && Stays(g.hash)
        ensures Sound(host, AtClock(d, g), AttestedBy(host, d, g, manifest))
      {
        assert AtCapture(d, g) == d;
        StaysKeepsTarget(d, g.hash);
        SettledAttestationIsSound(host, d, g, manifest);
      }
    } else {
      SameTickIsUnsound(host, d, manifest, other);
    }
  }

  /** Pointing the path at the verified file only while it is hashed attests the other file. */
  lemma RepointIsUnsound(host: Host, d: Disk, manifest: Record, good: nat)
    requires Present(d) && good in d.inodes && d.target != Some(0) && manifest.version == host.version
    requires host.hash(d.inodes[good].bytes) == manifest.sha256 && !HashMatches(host, d, manifest)
    requires IdentitySettledAt(IdentityOf(d), d.clock)
    ensures var g := Gaps([], [Point(good)], [Point(d.target.value)], []);
      AttestedBy(host, d, g, manifest).Some? && !Sound(host, AtClock(d, g), AttestedBy(host, d, g, manifest))
  {
    OneChange(d, Point(good));
    OneChange(Changed(d, Point(good)), Point(d.target.value));
  }

  /** What others do while the version of a verified binary is checked: before its identity is
      captured, before it is run, before the record is read again, before the identity is captured
      again, before the clock is read. */
  datatype RunGaps = RunGaps(
    capture: seq<Change>, run: seq<Change>, read: seq<Change>, again: seq<Change>, clock: seq<Change>)

  /** Renewing an accepted record with the version check is sound whatever is done to the file, as
      long as the path goes on naming it. */
  lemma RenewedIsSound(host: Host, r: Attested, capture: Disk, g: RunGaps, manifest: Record, at: nat)
    requires Tracks(host, capture, r) && Present(capture) && Stays(g.run) && Stays(g.read) && Stays(g.again)
    requires var run := AllChanged(capture, g.run);
      var read := AllChanged(run, g.read);
      var again := AllChanged(read, g.again);
      && VersionMatches(host, run) && Accepts(host, read, Some(r), manifest)
      && Present(again) && SameIdentity(IdentityOf(capture), IdentityOf(again))
      && at == AllChanged(again, g.clock).clock && IdentitySettledAt(IdentityOf(capture), at)
    ensures var again := AllChanged(AllChanged(AllChanged(capture, g.run), g.read), g.again);
      Tracks(host, AllChanged(again, g.clock), Attested(IdentityOf(capture), manifest.sha256, host.version, true, at))
  {
    var run := AllChanged(capture, g.run);
    var read := AllChanged(run, g.read);
    var again := AllChanged(read, g.again);
    var ino, c := r.identity.ino, r.identity.ctime;
    StaysKeepsTarget(capture, g.run);
    StaysKeepsTarget(run, g.read);
    StaysKeepsTarget(read, g.again);
    ClockAdvances(capture, g.run);
    ClockAdvances(run, g.read);
    ClockAdvances(read, g.again);
    assert !Drifted(run, ino, c) by {
      if Drifted(run, ino, c) { DriftedForever(run, g.read, ino, c); }
    }
    assert !Drifted(capture, ino, c) by {
      if Drifted(capture, ino, c) { DriftedForever(capture, g.run, ino, c); }
    }
    var bytes := run.inodes[ino].bytes;
    PinnedForever(run, g.read, ino, c, bytes);
    PinnedForever(read, g.again, ino, c, bytes);
    PinnedForever(again, g.clock, ino, c, bytes);
    TracksForever(host, capture, r, g.run);
    TracksForever(host, run, r, g.read);
    TracksForever(host, read, r, g.again);
    TracksForever(host, again, r, g.clock);
  }

  // ----- exactly what a record is accepted for, and when one is written -----

  /** Both timestamps are at least two seconds old. */
  predicate Settled(i: Identity, at: nat) {
    i.mtime + 2_000_000_000 <= at && i.ctime + 2_000_000_000 <= at
  }

  /** The path names a file other than inode zero with exactly these four values. */
  predicate Names(d: Disk, i: Identity) {
    && i.ino != 0 && d.target == Some(i.ino) && i.ino in d.inodes
    && |d.inodes[i.ino].bytes| == i.size && d.inodes[i.ino].mtime == i.mtime && d.inodes[i.ino].ctime == i.ctime
  }

  lemma AcceptsWhen(host: Host, d: Disk, r: Attested, manifest: Record)
    ensures Accepts(host, d, Some(r), manifest) <==>
      && Names(d, r.identity) && Settled(r.identity, r.at)
      && r.sha256 == manifest.sha256 && r.version == manifest.version == host.version
    ensures !Accepts(host, d, None, manifest)
  {
  }

  /** A full verification writes a record exactly for a matching file of this version whose settled
      identity is the same before and after it is hashed. */
  lemma AttestedWhen(host: Host, d: Disk, g: Gaps, manifest: Record, r: Attested)
    ensures AttestedBy(host, d, g, manifest) == Some(r) <==>
      var hash := AtHash(d, g);
      && Names(AtCapture(d, g), r.identity) && Names(AtAgain(d, g), r.identity)
      && hash.target.Some? && hash.target.value in hash.inodes
      && host.hash(hash.inodes[hash.target.value].bytes) == manifest.sha256
      && r.at == AtClock(d, g).clock && Settled(r.identity, r.at)
      && r.sha256 == manifest.sha256 && r.version == manifest.version == host.version && !r.versionChecked
  {
  }

  /** The record a version check writes, if it writes one: `before` is the one it found. */
  function RenewedBy(host: Host, d: Disk, before: Option<Attested>, g: RunGaps, manifest: Record): Option<Attested> {
    var capture := AllChanged(d, g.capture);
    var run := AllChanged(capture, g.run);
    var read := AllChanged(run, g.read);
    var again := AllChanged(read, g.again);
    var at := AllChanged(again, g.clock).clock;
    if Present(capture) && VersionMatches(host, run) && Accepts(host, read, before, manifest) && Present(again)
       && SameIdentity(IdentityOf(capture), IdentityOf(again)) && IdentitySettledAt(IdentityOf(capture), at)
    then Some(Attested(IdentityOf(capture), manifest.sha256, host.version, true, at))
    else None
  }

  /** A version check renews exactly an accepted record, for an identity that is settled and the same
      before and after the binary reported the wrapper's version. */
  lemma RenewedWhen(host: Host, d: Disk, before: Attested, g: RunGaps, manifest: Record, r: Attested)
    ensures RenewedBy(host, d, Some(before), g, manifest) == Some(r) <==>
      var capture := AllChanged(d, g.capture);
      var run := AllChanged(capture, g.run);
      var read := AllChanged(run, g.read);
      var again := AllChanged(read, g.again);
      && Names(capture, r.identity) && Names(again, r.identity)
      && run.target.Some? && run.target.value in run.inodes
      && host.reports(run.inodes[run.target.value].bytes) == host.version
      && Names(read, before.identity) && Settled(before.identity, before.at)
      && before.sha256 == manifest.sha256 && before.version == manifest.version == host.version
      && r.at == AllChanged(again, g.clock).clock && Settled(r.identity, r.at)
      && r.sha256 == manifest.sha256 && r.version == host.version && r.versionChecked
    ensures RenewedBy(host, d, None, g, manifest) == None
  {
  }

  /** What a verification wrote is accepted as long as the path names a file of the same identity. */
  lemma AttestedIsAccepted(host: Host, d: Disk, g: Gaps, manifest: Record, r: Attested, later: Disk)
    requires AttestedBy(host, d, g, manifest) == Some(r)
    ensures Accepts(host, later, Some(r), manifest) <==> Names(later, r.identity)
  {
    AttestedWhen(host, d, g, manifest, r);
    AcceptsWhen(host, later, r, manifest);
  }

  // ----- the cache -----

  class Cache {
    const host: Host
    var disk: Disk
    var record: Option<Attested>

    constructor (host: Host, disk: Disk)
      ensures this.host == host && this.disk == disk && record == None
    {
      this.host := host;
      this.disk := disk;
      record := None;
    }

    predicate Valid()
      reads this
    {
      Sound(host, disk, record)
    }

    /** What others do between two steps. */
    method Interfere(changes: seq<Change>)
      modifies this`disk
      ensures disk == AllChanged(old(disk), changes)
      ensures old(Valid()) ==> Valid()
    {
      ghost var start := disk;
      for i := 0 to |changes|
        invariant AllChanged(disk, changes[i..]) == AllChanged(start, changes)
      {
        assert changes[i..][0] == changes[i] && changes[i..][1..] == changes[i + 1..];
        disk := Changed(disk, changes[i]);
      }
      if Sound(host, start, record) {
        SoundForever(host, start, record, changes);
      }
    }

    /** Best effort: `saved` says whether the write works. */
    method WriteAttestation(manifest: Record, identity: Identity, versionChecked: bool, saved: bool)
      modifies this`record
      ensures record ==
        if manifest.version == host.version && IdentitySettledAt(identity, disk.clock) && saved
        then Some(Attested(identity, manifest.sha256, host.version, versionChecked, disk.clock))
        else old(record)
    {
      if manifest.version != host.version {
        return;
      }
      var at := disk.clock;
      if !IdentitySettledAt(identity, at) {
        return;
      }
      if saved {
        record := Some(Attested(identity, manifest.sha256, host.version, versionChecked, at));
      }
    }

    /** Answers what a full hash answers, at the start or at the moment it hashes, and leaves a
        sound record. A missing file is no match. */
    method BinaryDigestMatches(manifest: Record, g: Gaps, removed: bool, saved: bool)
      returns (answer: bool, ghost seen: Disk)
      requires Valid() && Careful(disk, g)
      modifies this
      ensures Valid()
      ensures seen in {old(disk), AtCapture(old(disk), g), AtHash(old(disk), g)}
      ensures answer <==> HashMatches(host, seen, manifest)
      ensures record ==
        if Accepts(host, old(disk), old(record), manifest) then old(record)
        else if saved && AttestedBy(host, old(disk), g, manifest).Some? then AttestedBy(host, old(disk), g, manifest)
        else if removed then None
        else old(record)
    {
      ghost var start := disk;
      seen := disk;
      if Accepts(host, disk, record, manifest) {
        AcceptedMatches(host, disk, record, manifest);
        return true, disk;
      }
      if removed {
        record := None;
      }
      Interfere(g.capture);
      if !Present(disk) {
        return false, disk;
      }
      var before := IdentityOf(disk);
      Interfere(g.hash);
      seen := disk;
      if !HashMatches(host, disk, manifest) {
        return false, disk;
      }
      Interfere(g.again);
      var same := Present(disk) && SameIdentity(before, IdentityOf(disk));
      Interfere(g.clock);
      if same {
        CarefulIsSound(host, start, g, manifest);
        WriteAttestation(manifest, before, false, saved);
      }
      return true, seen;
    }

    /** The part of `validateCachedBinary` that follows the digest check. */
    method CheckVersion(manifest: Record, g: RunGaps, saved: bool) returns (answer: bool, ghost seen: Disk)
      requires Valid() && Stays(g.run) && Stays(g.read) && Stays(g.again)
      modifies this
      ensures Valid()
      ensures answer <==> VersionMatches(host, seen)
      ensures var capture := AllChanged(old(disk), g.capture); seen in {old(disk), capture, AllChanged(capture, g.run)}
      ensures record ==
        if Accepts(host, old(disk), old(record), manifest) && old(record).value.versionChecked then old(record)
        else if saved && RenewedBy(host, old(disk), old(record), g, manifest).Some?
        then RenewedBy(host, old(disk), old(record), g, manifest)
        else old(record)
    {
      seen := disk;
      if Accepts(host, disk, record, manifest) && record.value.versionChecked {
        AcceptedMatches(host, disk, record, manifest);
        return true, disk;
      }
      Interfere(g.capture);
      if !Present(disk) {
        return false, disk;
      }
      ghost var capture := disk;
      var identity := IdentityOf(disk);
      Interfere(g.run);
      seen := disk;
      if !VersionMatches(host, disk) {
        return false, seen;
      }
      Interfere(g.read);
      var accepted := Accepts(host, disk, record, manifest);
      Interfere(g.again);
      var same := Present(disk) && SameIdentity(identity, IdentityOf(disk));
      Interfere(g.clock);
      if accepted && same {
        ghost var at := disk.clock;
        if IdentitySettledAt(identity, at) {
          RenewedIsSound(host, record.value, capture, g, manifest, at);
        }
        WriteAttestation(manifest, identity, true, saved);
      }
      return true, seen;
    }
  }

  /** Either nothing happens from the hash to the clock reading, or the ctime had settled at the
      capture and the path still names the captured file when it is hashed. */
  predicate Careful(d: Disk, g: Gaps) {
    || (OnlyTicks(g.again) && OnlyTicks(g.clock))
    || (Present(AtCapture(d, g)) && IdentityOf(AtCapture(d, g)).ctime + GRAIN <= AtCapture(d, g).clock
        && AtHash(d, g).target == AtCapture(d, g).target)
  }

  lemma CarefulIsSound(host: Host, d: Disk, g: Gaps, manifest: Record)
    requires Careful(d, g)
    ensures Sound(host, AtClock(d, g), AttestedBy(host, d, g, manifest))
  {
    if OnlyTicks(g.again) && OnlyTicks(g.clock) {
      QuietAttestationIsSound(host, d, g, manifest);
    } else {
      SettledAttestationIsSound(host, d, g, manifest);
    }
  }
}
