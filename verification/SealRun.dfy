/** The seal command step by step: every disk it leaves behind on the way still loads. */
module SealRun {
  import opened Basics
  import opened Results
  import opened Rewriter
  import opened ConfigText
  import SecretStore
  import opened SealCommand

  // ----- the host key -----

  /** The key the command seals under, if its path holds one or nothing. */
  function UsedKey(job: Job, d: Disk): Option<HostKey> {
    if job.hostKey in d then d[job.hostKey].key else Some(job.newKey)
  }

  /** The disk once there is a file at the key's path. */
  function KeyDisk(job: Job, d: Disk): Disk {
    if job.hostKey in d then d else d[job.hostKey := File(job.keyText, None, Some(job.newKey))]
  }

  lemma StoredSurvivesKey(job: Job, d: Disk, cfg: Place, f: string)
    requires PathOf(cfg) in d
    ensures Stored(KeyDisk(job, d), cfg, f) == Stored(d, cfg, f)
  {
  }

  lemma SidecarsSurviveKey(job: Job, d: Disk, path: string)
    requires PathOf(job.cfg) in d
    ensures IsSidecar(job, KeyDisk(job, d), path) <==> IsSidecar(job, d, path)
  {
    forall f ensures Stored(KeyDisk(job, d), job.cfg, f) == Stored(d, job.cfg, f) {
      StoredSurvivesKey(job, d, job.cfg, f);
    }
  }

  lemma FetchSurvivesKey(job: Job, d: Disk, cfg: Place, f: string)
    requires Fetch(In(job, d), cfg, f).Ok?
    ensures Fetch(In(job, KeyDisk(job, d)), cfg, f) == Fetch(In(job, d), cfg, f)
  {
    if job.hostKey !in d {
      FetchSurvivesNewFile(In(job, d), cfg, f, job.hostKey, File(job.keyText, None, Some(job.newKey)));
    }
  }

  lemma BesideSurvivesKey(job: Job, d: Disk, cfg: Place, f: string)
    requires PathOf(job.cfg) in d && Beside(job, d, cfg, f)
    ensures Beside(job, KeyDisk(job, d), cfg, f)
    ensures Spared(job, KeyDisk(job, d), cfg, f) <==> Spared(job, d, cfg, f)
  {
    StoredSurvivesKey(job, d, cfg, f);
    FetchSurvivesKey(job, d, cfg, f);
    forall path ensures IsSidecar(job, KeyDisk(job, d), path) <==> IsSidecar(job, d, path) {
      SidecarsSurviveKey(job, d, path);
    }
  }

  /** Having the key changes nothing that is loaded. */
  lemma KeyStage(job: Job, d: Disk)
    requires PathOf(job.cfg) in d && Loads(job, d) && Separate(job, d)
    ensures Intact(job, d, KeyDisk(job, d)) && Loads(job, KeyDisk(job, d)) && Secrets(job, KeyDisk(job, d)) == Secrets(job, d)
    ensures Separate(job, KeyDisk(job, d))
    ensures NoCrossing(job, KeyDisk(job, d)) <==> NoCrossing(job, d)
  {
    if job.hostKey !in d {
      IntactAfterKey(job, d, File(job.keyText, None, Some(job.newKey)));
    }
    SidecarsSurviveKey(job, d, PathOf(job.bundle));
    SidecarsSurviveKey(job, d, job.runtimeKey);
    forall f ensures Stored(KeyDisk(job, d), job.cfg, f) == Stored(d, job.cfg, f) {
      StoredSurvivesKey(job, d, job.cfg, f);
    }
  }

  /** So what is kept from there is kept from the start, and the config itself is lost from there if lost from the start. */
  lemma KeptFromKeyStage(job: Job, d: Disk, now: Disk)
    requires PathOf(job.cfg) in d && Loads(job, d) && Separate(job, d) && OthersIntact(job, KeyDisk(job, d), now)
    ensures Intact(job, d, now) <==> OwnIntact(job, KeyDisk(job, d), now)
  {
    KeyStage(job, d);
    forall cfg, f | Beside(job, d, cfg, f) && Spared(job, d, cfg, f)
      ensures Fetch(In(job, now), cfg, f) == Fetch(In(job, d), cfg, f)
    {
      BesideSurvivesKey(job, d, cfg, f);
      FetchSurvivesKey(job, d, cfg, f);
    }
  }

  // ----- sidecars -----

  lemma {:induction false} SidecarsListed(job: Job, disk: Disk, text: string, k: nat)
    requires k <= |job.fields| && PathOf(job.cfg) in disk && disk[PathOf(job.cfg)].text == text
    ensures forall rel :: rel in Sidecars(job.cfg, text, job.fields[..k]) ==> IsSidecar(job, disk, Resolve(job.cfg.dir, rel))
    ensures forall f :: f in job.fields[..k] && Stored(disk, job.cfg, f).Some? && Stored(disk, job.cfg, f).value.FileRef? ==>
              SplitFragment(Stored(disk, job.cfg, f).value.spec).0 in Sidecars(job.cfg, text, job.fields[..k])
  {
    if k > 0 {
      SidecarsListed(job, disk, text, k - 1);
      assert job.fields[..k][..k - 1] == job.fields[..k - 1];
      assert job.fields[k - 1] in job.fields;
      assert job.fields[..k] == job.fields[..k - 1] + [job.fields[k - 1]];
    }
  }

  /** The disks a crash may leave without losing anything. */
  ghost function SafeDisks(job: Job, d0: Disk): iset<Disk> {
    iset d | Intact(job, d0, d)
  }

  /** The secrets of all fields as `fetch` gives them, or none if one fails. */
  method Collect(fields: seq<string>, ns: string, fetch: string -> Result<string, ConfigError>) returns (r: Option<seq<SecretStore.Secret>>)
    ensures r.Some? <==> forall f :: f in fields ==> fetch(f).Ok?
    ensures r.Some? ==> |r.value| == |fields|
    ensures r.Some? ==>
      forall j :: 0 <= j < |fields| ==> r.value[j] == SecretStore.Secret(EntryName(ns, fields[j]), fetch(fields[j]).value)
  {
    var secrets: seq<SecretStore.Secret> := [];
    for i := 0 to |fields|
      invariant |secrets| == i && forall j :: 0 <= j < i ==> fetch(fields[j]).Ok?
      invariant forall j :: 0 <= j < i ==> secrets[j] == SecretStore.Secret(EntryName(ns, fields[j]), fetch(fields[j]).value)
    {
      var value := fetch(fields[i]);
      if value.Err? {
        return None;
      }
      secrets := secrets + [SecretStore.Secret(EntryName(ns, fields[i]), value.value)];
    }
    return Some(secrets);
  }

  /** Loads the config: every field, or nothing. */
  method LoadSecrets(job: Job, disk: Disk) returns (r: Option<seq<SecretStore.Secret>>)
    ensures r.Some? <==> Loads(job, disk)
    ensures r.Some? ==> r.value == Secrets(job, disk)
  {
    r := Collect(job.fields, job.ns, f => Fetch(In(job, disk), job.cfg, f));
  }

  /** Loads the host key, creating one if there is none. */
  method ReadyKey(s: Storage, job: Job) returns (key: Option<HostKey>)
    modifies s
    ensures key == UsedKey(job, old(s.disk)) && s.disk == KeyDisk(job, old(s.disk))
    ensures s.trail == old(s.trail) + if job.hostKey in old(s.disk) then [] else [s.disk]
  {
    if job.hostKey in s.disk {
      return s.disk[job.hostKey].key;
    }
    s.Replace(job.hostKey, File(job.keyText, None, Some(job.newKey)));
    return Some(job.newKey);
  }

  /** What the command starts from: the bundle file's contents if it is readable and current, an empty bundle if there is none. */
  function OldBundle(job: Job, d: Disk): Option<Bundle> {
    var path := PathOf(job.bundle);
    if path !in d then Some(SecretStore.Bundle(SecretStore.BUNDLE_VERSION, job.firstId, map[]))
    else if d[path].bundle.None? || d[path].bundle.value.version != SecretStore.BUNDLE_VERSION then None
    else d[path].bundle
  }

  function ResealOf(job: Job, d: Disk, key: HostKey, secrets: seq<SecretStore.Secret>): Option<Bundle> {
    var b := OldBundle(job, d);
    if b.None? then None else SecretStore.Reseal(b.value, key, secrets, job.newId)
  }

  /** Re-seals the bundle file's contents, or an empty bundle if there is no file. */
  method ResealBundle(s: Storage, job: Job, key: HostKey, secrets: seq<SecretStore.Secret>) returns (r: Option<Bundle>)
    ensures r == ResealOf(job, s.disk, key, secrets)
  {
    var path := PathOf(job.bundle);
    var b := SecretStore.Bundle(SecretStore.BUNDLE_VERSION, job.firstId, map[]);
    if path in s.disk {
      if s.disk[path].bundle.None? || s.disk[path].bundle.value.version != SecretStore.BUNDLE_VERSION {
        return None;
      }
      b := s.disk[path].bundle.value;
    }
    var bundle := new SecretStore.SealedBundle.Of(b);
    var error := bundle.SealInto(key, secrets, job.newId);
    if error.Some? {
      return None;
    }
    return Some(bundle.Contents());
  }

  lemma SealedWithout(job: Job, d: Disk, b': Bundle, d': Disk, path: string)
    requires Separate(job, d) && Sealed(job, d, b', d') && Removed(job, d, path)
    ensures Sealed(job, d, b', d' - {path})
  {
  }

  lemma EverySidecarIsListed(job: Job, d: Disk, text: string, path: string)
    requires PathOf(job.cfg) in d && d[PathOf(job.cfg)].text == text && IsSidecar(job, d, path)
    ensures exists k :: 0 <= k < |Sidecars(job.cfg, text, job.fields)|
                        && Resolve(job.cfg.dir, Sidecars(job.cfg, text, job.fields)[k]) == path
  {
    assert job.fields[..|job.fields|] == job.fields;
    SidecarsListed(job, d, text, |job.fields|);
  }

  lemma ListedIsSidecar(job: Job, d: Disk, text: string, rel: string)
    requires PathOf(job.cfg) in d && d[PathOf(job.cfg)].text == text && rel in Sidecars(job.cfg, text, job.fields)
    ensures IsSidecar(job, d, Resolve(job.cfg.dir, rel))
  {
    assert job.fields[..|job.fields|] == job.fields;
    SidecarsListed(job, d, text, |job.fields|);
  }

  /** The trail has grown by disks that are all in `ok`. */
  ghost predicate Follows(before: seq<Disk>, after: seq<Disk>, ok: iset<Disk>) {
    before <= after && forall i :: |before| <= i < |after| ==> after[i] in ok
  }

  /** The command deletes what it finds here. */
  predicate Deletes(job: Job, path: string) {
    path != PathOf(job.cfg) && path !in job.stuck
  }

  /** `ok` stays so when a sidecar goes that the command deletes. */
  ghost predicate ToleratesRemovals(job: Job, sidecars: seq<string>, ok: iset<Disk>) {
    forall d, i :: d in ok && 0 <= i < |sidecars| && Deletes(job, Resolve(job.cfg.dir, sidecars[i])) ==>
      d - {Resolve(job.cfg.dir, sidecars[i])} in ok
  }

  /** The sets of disks that stay so. */
  ghost function Tolerating(job: Job, sidecars: seq<string>): iset<iset<Disk>> {
    iset ok | ToleratesRemovals(job, sidecars, ok)
  }

  /** Nothing is left at `path` that the command may and can delete. */
  predicate Gone(job: Job, disk: Disk, path: string) {
    Deletes(job, path) ==> path !in disk
  }

  /** Deletes the plaintext files the original config referred to, except the config itself and what cannot be deleted. */
  method RemoveSidecars(s: Storage, job: Job, sidecars: seq<string>, ghost ok: iset<Disk>)
    requires s.disk in ok && ok in Tolerating(job, sidecars)
    modifies s
    ensures s.disk in ok && Follows(old(s.trail), s.trail, ok)
    ensures forall k :: 0 <= k < |sidecars| ==> Gone(job, s.disk, Resolve(job.cfg.dir, sidecars[k]))
  {
    for i := 0 to |sidecars|
      invariant s.disk in ok && Follows(old(s.trail), s.trail, ok)
      invariant forall k :: 0 <= k < i ==> Gone(job, s.disk, Resolve(job.cfg.dir, sidecars[k]))
    {
      var path := Resolve(job.cfg.dir, sidecars[i]);
      if Deletes(job, path) && path in s.disk {
        s.Remove(path);
      }
    }
  }

  // ----- the disks passed through -----

  /** The disks on which every field of the config is a reference to its own entry. */
  ghost function OwnReferences(job: Job): iset<Disk> {
    iset d | AllOwn(job, d)
  }

  ghost predicate AllOwn(job: Job, d: Disk) {
    forall f :: f in job.fields ==> SealedAt(job, d, job.cfg, f, EntryName(job.ns, f))
  }

  /** The disks from the config's replacement on. */
  ghost function SealedDisks(job: Job, d: Disk, b': Bundle): iset<Disk> {
    iset d' | Sealed(job, d, b', d')
  }

  /** The command gets to replacing files. */
  predicate Succeeds(job: Job, d: Disk) {
    && PathOf(job.cfg) in d && Loads(job, d) && UsedKey(job, d).Some?
    && ResealOf(job, KeyDisk(job, d), UsedKey(job, d).value, Secrets(job, d)).Some?
  }

  function NewBundle(job: Job, d: Disk): Bundle
    requires Succeeds(job, d)
  {
    ResealOf(job, KeyDisk(job, d), UsedKey(job, d).value, Secrets(job, d)).value
  }

  /** The runtime holds the key sealed under, which a config with no secrets does not need. */
  predicate RuntimeCanRead(job: Job, d: Disk) {
    job.fields == [] || KeyAt(KeyDisk(job, d), job.runtimeKey) == UsedKey(job, d)
  }

  lemma SucceedsIsSealing(job: Job, d: Disk)
    requires Succeeds(job, d) && Separate(job, d)
    ensures Loads(job, KeyDisk(job, d))
    ensures exists b :: Sealing(job, KeyDisk(job, d), UsedKey(job, d).value, b, NewBundle(job, d))
  {
    KeyStage(job, d);
    var b := OldBundle(job, KeyDisk(job, d)).value;
    assert Sealing(job, KeyDisk(job, d), UsedKey(job, d).value, b, NewBundle(job, d));
  }

  /** The disk with the bundle replaced, and every later one, is safe exactly under its own condition. */
  lemma StagesAreSafe(job: Job, d: Disk)
    requires WellNamed(job) && Separate(job, d) && Succeeds(job, d)
    ensures var d1 := KeyDisk(job, d);
            d1[PathOf(job.bundle) := BundleFile(job, NewBundle(job, d))] in SafeDisks(job, d)
            <==> Undisturbed(job, d1, UsedKey(job, d).value)
    ensures forall d' :: d' in SealedDisks(job, KeyDisk(job, d), NewBundle(job, d)) ==>
              (d' in SafeDisks(job, d) <==> RuntimeCanRead(job, d)) && d' in OwnReferences(job)
  {
    var (d1, key, b') := (KeyDisk(job, d), UsedKey(job, d).value, NewBundle(job, d));
    KeyStage(job, d);
    SucceedsIsSealing(job, d);
    var b :| Sealing(job, d1, key, b, b');
    BundleReplaceIsSafe(job, d1, key, b, b');
    KeptFromKeyStage(job, d, d1[PathOf(job.bundle) := BundleFile(job, b')]);
    forall d' | d' in SealedDisks(job, d1, b')
      ensures (d' in SafeDisks(job, d) <==> RuntimeCanRead(job, d)) && d' in OwnReferences(job)
    {
      SealedIsIntact(job, d1, key, b, b', d');
      KeptFromKeyStage(job, d, d');
      forall f | f in job.fields ensures SealedAt(job, d', job.cfg, f, EntryName(job.ns, f)) {
        OwnAfterSealed(job, d1, key, b, b', d', f);
      }
    }
  }

  /** The disks on which another config resolves a field as before exactly when no removal touches it. */
  ghost function ExactForOthers(job: Job, d: Disk): iset<Disk> {
    iset d' | OthersExactly(job, d, d')
  }

  ghost predicate OthersExactly(job: Job, before: Disk, now: Disk) {
    forall cfg, f :: Beside(job, before, cfg, f) ==>
      (Fetch(In(job, now), cfg, f) == Fetch(In(job, before), cfg, f) <==> Spared(job, before, cfg, f))
  }

  lemma AllCleared(job: Job, d: Disk, d': Disk)
    requires PathOf(job.cfg) in d && forall path :: IsSidecar(job, d, path) ==> Gone(job, d', path)
    ensures Cleared(job, KeyDisk(job, d), d')
  {
    forall path | Removed(job, KeyDisk(job, d), path) ensures path !in d' {
      SidecarsSurviveKey(job, d, path);
    }
  }

  lemma OtherAtLast(job: Job, d: Disk, key: HostKey, b: Bundle, b': Bundle, d': Disk, cfg: Place, f: string)
    requires PathOf(job.cfg) in d && Beside(job, d, cfg, f)
    requires var d1 := KeyDisk(job, d);
             Separate(job, d1) && Loads(job, d1) && Sealing(job, d1, key, b, b') && Sealed(job, d1, b', d') && Cleared(job, d1, d')
    ensures Fetch(In(job, d'), cfg, f) == Fetch(In(job, d), cfg, f) <==> Spared(job, d, cfg, f)
  {
    BesideSurvivesKey(job, d, cfg, f);
    FetchSurvivesKey(job, d, cfg, f);
    BesideAfterAll(job, KeyDisk(job, d), key, b, b', d', cfg, f);
  }

  lemma OthersAtLast(job: Job, d: Disk, key: HostKey, b: Bundle, b': Bundle, d': Disk)
    requires PathOf(job.cfg) in d
    requires var d1 := KeyDisk(job, d);
             Separate(job, d1) && Loads(job, d1) && Sealing(job, d1, key, b, b') && Sealed(job, d1, b', d') && Cleared(job, d1, d')
    ensures d' in ExactForOthers(job, d)
  {
    forall cfg, f | Beside(job, d, cfg, f)
      ensures Fetch(In(job, d'), cfg, f) == Fetch(In(job, d), cfg, f) <==> Spared(job, d, cfg, f)
    {
      OtherAtLast(job, d, key, b, b', d', cfg, f);
    }
  }

  /** So it is once every sidecar is gone. */
  lemma LastDiskIsExact(job: Job, d: Disk, d': Disk)
    requires Separate(job, d) && Succeeds(job, d) && d' in SealedDisks(job, KeyDisk(job, d), NewBundle(job, d))
    requires forall path :: IsSidecar(job, d, path) ==> Gone(job, d', path)
    ensures d' in ExactForOthers(job, d)
  {
    var (key, b') := (UsedKey(job, d).value, NewBundle(job, d));
    KeyStage(job, d);
    SucceedsIsSealing(job, d);
    AllCleared(job, d, d');
    var b :| Sealing(job, KeyDisk(job, d), key, b, b');
    OthersAtLast(job, d, key, b, b', d');
  }

  /** The two conditions together, as a caller can check them before the run. */
  lemma ConditionsCombine(job: Job, d: Disk)
    requires Separate(job, d) && Succeeds(job, d)
    ensures Undisturbed(job, KeyDisk(job, d), UsedKey(job, d).value) && RuntimeCanRead(job, d)
            <==> NoCrossing(job, d) && RuntimeCanRead(job, d)
  {
    KeyStage(job, d);
  }

  lemma SealedDisksTolerateRemovals(job: Job, d: Disk, b': Bundle)
    requires Separate(job, d) && PathOf(job.cfg) in d
    ensures SealedDisks(job, d, b') in Tolerating(job, Sidecars(job.cfg, d[PathOf(job.cfg)].text, job.fields))
  {
    var text := d[PathOf(job.cfg)].text;
    var sidecars := Sidecars(job.cfg, text, job.fields);
    forall d', i | d' in SealedDisks(job, d, b') && 0 <= i < |sidecars| && Deletes(job, Resolve(job.cfg.dir, sidecars[i]))
      ensures d' - {Resolve(job.cfg.dir, sidecars[i])} in SealedDisks(job, d, b')
    {
      ListedIsSidecar(job, d, text, sidecars[i]);
      SealedWithout(job, d, b', d', Resolve(job.cfg.dir, sidecars[i]));
    }
  }

  lemma ConfigReplaceSeals(job: Job, d: Disk, b': Bundle, file: File)
    requires Separate(job, d) && PathOf(job.cfg) in d && PathOf(job.bundle) != PathOf(job.cfg)
    requires file.text == Rewritten(job, d[PathOf(job.cfg)].text)
    ensures d[PathOf(job.bundle) := BundleFile(job, b')][PathOf(job.cfg) := file] in SealedDisks(job, d, b')
  {
  }

  // ----- replacing files -----

  /** The command's own check of its rewrite: every secret can be read and none is inline. */
  method AllReferenced(fields: seq<string>, source: string -> Option<Source>) returns (ok: bool)
    ensures ok <==> forall i :: 0 <= i < |fields| ==> source(fields[i]).Some? && !source(fields[i]).value.Inline?
  {
    for i := 0 to |fields|
      invariant forall j :: 0 <= j < i ==> source(fields[j]).Some? && !source(fields[j]).value.Inline?
    {
      var found := source(fields[i]);
      if found.None? || found.value.Inline? {
        return false;
      }
    }
    return true;
  }

  /** The rewrite of this text passes that check. */
  predicate Passes(job: Job, text: string) {
    forall i :: 0 <= i < |job.fields| ==>
      SourceOf(Rewritten(job, text), job.fields[i]).Some? && !SourceOf(Rewritten(job, text), job.fields[i]).value.Inline?
  }

  /** The check never turns away a config that loads. */
  lemma LoadedPasses(job: Job, d: Disk)
    requires WellNamed(job) && PathOf(job.cfg) in d && Loads(job, d)
    ensures Passes(job, d[PathOf(job.cfg)].text)
  {
    forall i | 0 <= i < |job.fields|
      ensures SourceOf(Rewritten(job, d[PathOf(job.cfg)].text), job.fields[i]).Some?
              && !SourceOf(Rewritten(job, d[PathOf(job.cfg)].text), job.fields[i]).value.Inline?
    {
      assert Fetch(In(job, d), job.cfg, job.fields[i]).Ok?;
      RewrittenSource(job, d[PathOf(job.cfg)].text, job.fields[i]);
    }
  }

  /** The bundle; then, if the rewrite passes the check, the config; then the sidecars. */
  method ReplaceFiles(s: Storage, job: Job, b': Bundle, ghost ok: iset<Disk>) returns (done: bool)
    requires PathOf(job.cfg) in s.disk && PathOf(job.bundle) != PathOf(job.cfg)
    requires s.disk[PathOf(job.bundle) := BundleFile(job, b')]
                   [PathOf(job.cfg) := File(Rewritten(job, s.disk[PathOf(job.cfg)].text), None, None)] in ok
    requires ok in Tolerating(job, Sidecars(job.cfg, s.disk[PathOf(job.cfg)].text, job.fields))
    modifies s
    ensures done <==> Passes(job, old(s.disk)[PathOf(job.cfg)].text)
    ensures Follows(old(s.trail) + [old(s.disk)[PathOf(job.bundle) := BundleFile(job, b')]], s.trail, ok)
    ensures done ==> s.disk in ok && |s.trail| > |old(s.trail)| + 1
    ensures done ==> forall k :: 0 <= k < |Sidecars(job.cfg, old(s.disk)[PathOf(job.cfg)].text, job.fields)| ==>
      Gone(job, s.disk, Resolve(job.cfg.dir, Sidecars(job.cfg, old(s.disk)[PathOf(job.cfg)].text, job.fields)[k]))
  {
    s.Replace(PathOf(job.bundle), BundleFile(job, b'));
    var original := s.disk[PathOf(job.cfg)].text;
    var sidecars := Sidecars(job.cfg, original, job.fields);
    var rewritten := RewriteSecrets(original, BundleRef(job.cfg, job.bundle), Targets(job));
    done := AllReferenced(job.fields, f => SourceOf(rewritten, f));
    if done {
      s.Replace(PathOf(job.cfg), File(rewritten, None, None));
      RemoveSidecars(s, job, sidecars, ok);
    }
  }

  /** A trail through one disk and then only disks of `ok` is safe exactly when that disk is and those are. */
  lemma TrailVerdict(a: seq<Disk>, d: Disk, b: seq<Disk>, ok: iset<Disk>, safe: iset<Disk>, there: bool, after: bool)
    requires Follows(a + [d], b, ok) && |b| > |a| + 1
    requires (d in safe <==> there) && (forall d' :: d' in ok ==> (d' in safe <==> after))
    ensures Follows(a, b, safe) <==> there && after
  {
    assert b[|a|] == (a + [d])[|a|];
    assert b[|a| + 1] in ok;
    assert forall i :: |a| < i < |b| ==> b[i] in ok;
  }

  lemma FollowsFurther(a: seq<Disk>, b: seq<Disk>, c: seq<Disk>, safe: iset<Disk>)
    requires Follows(a, b, safe) && b <= c
    ensures Follows(a, c, safe) <==> Follows(b, c, safe)
  {
  }

  lemma KeyIsSafe(job: Job, d: Disk, before: seq<Disk>, after: seq<Disk>)
    requires PathOf(job.cfg) in d && Loads(job, d) && Separate(job, d)
    requires after == before + if job.hostKey in d then [] else [KeyDisk(job, d)]
    ensures Follows(before, after, SafeDisks(job, d))
  {
    KeyStage(job, d);
  }

  lemma BundleIsApartFromConfig(job: Job, d: Disk)
    requires Separate(job, d) && Succeeds(job, d)
    ensures PathOf(job.bundle) != PathOf(job.cfg)
  {
    KeyStage(job, d);
    SucceedsIsSealing(job, d);
    var b :| Sealing(job, KeyDisk(job, d), UsedKey(job, d).value, b, NewBundle(job, d));
    BundleIsApart(job, KeyDisk(job, d), b);
  }

  /** Every sidecar by its path, from every one by its listing. */
  lemma AllGone(job: Job, d: Disk, now: Disk)
    requires PathOf(job.cfg) in d
    requires forall k :: 0 <= k < |Sidecars(job.cfg, d[PathOf(job.cfg)].text, job.fields)| ==>
      Gone(job, now, Resolve(job.cfg.dir, Sidecars(job.cfg, d[PathOf(job.cfg)].text, job.fields)[k]))
    ensures forall path :: IsSidecar(job, d, path) ==> Gone(job, now, path)
  {
    forall path | IsSidecar(job, d, path) ensures Gone(job, now, path) {
      EverySidecarIsListed(job, d, d[PathOf(job.cfg)].text, path);
    }
  }

  /** The command from the point where only files remain to be replaced. */
  method SealReady(s: Storage, job: Job, b': Bundle, ghost d: Disk) returns (done: bool)
    requires WellNamed(job) && Separate(job, d) && Succeeds(job, d) && s.disk == KeyDisk(job, d) && b' == NewBundle(job, d)
    modifies s
    ensures done && old(s.trail) <= s.trail
    ensures Follows(old(s.trail), s.trail, SafeDisks(job, d))
            <==> Undisturbed(job, KeyDisk(job, d), UsedKey(job, d).value) && RuntimeCanRead(job, d)
    ensures s.disk in SafeDisks(job, d) <==> RuntimeCanRead(job, d)
    ensures s.disk in OwnReferences(job) && s.disk in ExactForOthers(job, d)
    ensures forall path :: IsSidecar(job, d, path) ==> Gone(job, s.disk, path)
  {
    ghost var (d1, trail, ok) := (s.disk, s.trail, SealedDisks(job, s.disk, b'));
    ghost var bundled := s.disk[PathOf(job.bundle) := BundleFile(job, b')];
    KeyStage(job, d);
    BundleIsApartFromConfig(job, d);
    ConfigReplaceSeals(job, s.disk, b', File(Rewritten(job, s.disk[PathOf(job.cfg)].text), None, None));
    SealedDisksTolerateRemovals(job, s.disk, b');
    LoadedPasses(job, s.disk);
    StagesAreSafe(job, d);
    done := ReplaceFiles(s, job, b', ok);
    AllGone(job, d1, s.disk);
    forall path ensures IsSidecar(job, d1, path) <==> IsSidecar(job, d, path) {
      SidecarsSurviveKey(job, d, path);
    }
    LastDiskIsExact(job, d, s.disk);
    TrailVerdict(trail, bundled, s.trail, ok, SafeDisks(job, d),
                 Undisturbed(job, KeyDisk(job, d), UsedKey(job, d).value), RuntimeCanRead(job, d));
  }

  /**
   The whole command. It succeeds exactly when the config loads, there is a key to seal under, and the bundle can be
   re-sealed; failure changes nothing but a missing key file. On success every disk passed through resolves this
   config, and every other config that no removed sidecar touches, to the secrets they had before, if and only if the
   runtime holds the key sealed under and no references cross; another config resolves as before at the end if and only
   if no removed sidecar touches it; each field is a reference to its own entry, and no sidecar that can be deleted is
   left.
   */
  method SealConfig(s: Storage, job: Job) returns (done: bool)
    requires WellNamed(job) && Separate(job, s.disk)
    modifies s
    ensures done <==> Succeeds(job, old(s.disk))
    ensures !done ==> s.disk == old(s.disk) || s.disk == KeyDisk(job, old(s.disk))
    ensures !done ==> Follows(old(s.trail), s.trail, SafeDisks(job, old(s.disk)))
    ensures done ==> (Follows(old(s.trail), s.trail, SafeDisks(job, old(s.disk)))
                      <==> NoCrossing(job, old(s.disk)) && RuntimeCanRead(job, old(s.disk)))
    ensures done ==> (s.disk in SafeDisks(job, old(s.disk)) <==> RuntimeCanRead(job, old(s.disk)))
    ensures done ==> s.disk in OwnReferences(job) && s.disk in ExactForOthers(job, old(s.disk))
    ensures done ==> forall path :: IsSidecar(job, old(s.disk), path) ==> Gone(job, s.disk, path)
  {
    ghost var (d, trail) := (s.disk, s.trail);
    if PathOf(job.cfg) !in s.disk {
      return false;
    }
    var secrets := LoadSecrets(job, s.disk);
    if secrets.None? {
      return false;
    }
    var key := ReadyKey(s, job);
    KeyIsSafe(job, d, trail, s.trail);
    if key.None? {
      return false;
    }
    var b := ResealBundle(s, job, key.value, secrets.value);
    if b.None? {
      return false;
    }
    ghost var keyed := s.trail;
    done := SealReady(s, job, b.value, d);
    ConditionsCombine(job, d);
    FollowsFurther(trail, keyed, s.trail, SafeDisks(job, d));
  }
}
