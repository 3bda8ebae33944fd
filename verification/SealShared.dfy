/** Two configs that keep a secret in one plain file: sealing one of them deletes the file under the other. */
module SealShared {
  import opened Basics
  import opened Results
  import opened Text
  import opened TomlText
  import opened Rewriter
  import opened ConfigText
  import SecretStore
  import opened SealCommand
  import opened SealRun
  import opened SealCrossing

  /** The text after the key of a secret kept in a file. */
  function FromFile(spec: string): string {
    [' '] + (['='] + ([' '] + (['{'] + TableText("file", spec))))
  }

  /** A config of one secret, kept in a file. */
  function FileConfig(f: string, spec: string): string {
    Unlines([f + FromFile(spec)])
  }

  lemma FromFileReads(spec: string)
    ensures FromFile(spec)[0] == ' ' && TrimStart(FromFile(spec)) == FromFile(spec)[1..] && ['='] <= FromFile(spec)[1..]
    ensures FromFile(spec)[1..][1..] == [' '] + (['{'] + TableText("file", spec))
    ensures ParseValue([' '] + (['{'] + TableText("file", spec))) == Some(FileRef(spec))
  {
    assert FromFile(spec)[1..] == ['='] + ([' '] + (['{'] + TableText("file", spec)));
    assert BareKey("file");
    ReferenceParses("file", spec);
  }

  lemma FromFileStaysOnItsLine(f: string, spec: string)
    requires BareKey(f)
    ensures '\n' !in f + FromFile(spec) && StripCr(f + FromFile(spec)) == f + FromFile(spec)
  {
    EscapedHasNoControls(spec);
    assert '\n' !in BasicString(spec);
    assert forall i :: 0 <= i < |f| ==> IsBare(f[i]);
    var line := f + FromFile(spec);
    assert line[|line| - 1] == '}';
  }

  lemma FileConfigReads(f: string, spec: string)
    requires BareKey(f)
    ensures SourceOf(FileConfig(f, spec), f) == Some(FileRef(spec))
  {
    var line := f + FromFile(spec);
    FromFileReads(spec);
    FromFileStaysOnItsLine(f, spec);
    UnlinesReadsBack([line]);
    assert StripEach([line]) == [line];
    assert "" + line == line;
    MatchesItsKey("", f, FromFile(spec), f);
    TrimsItsIndent("", line);
    assert line[|f|..] == FromFile(spec);
    assert Holders([line], f) == [line];
  }

  /** The file both configs refer to, beside them. */
  function Shared(job: Job): string {
    Resolve(job.cfg.dir, "k")
  }

  /** Two configs in one directory with the same text, the file they refer to, and the key in its place. */
  function SharedDisk(job: Job, other: Place, key: HostKey, secret: string): Disk
    requires |job.fields| == 1
  {
    map[
      PathOf(job.cfg) := File(FileConfig(job.fields[0], "k"), None, None),
      PathOf(other) := File(FileConfig(job.fields[0], "k"), None, None),
      Shared(job) := File(secret, None, None),
      job.hostKey := File("", None, Some(key))
    ]
  }

  predicate Laid(job: Job, other: Place) {
    && |job.fields| == 1 && PathsDiffer(job) && job.hostKey == job.runtimeKey
    && other.dir == job.cfg.dir && PathOf(other) != PathOf(job.cfg) && PathOf(other) != PathOf(job.bundle)
    && PathOf(other) != job.hostKey && Shared(job) != PathOf(job.cfg) && Shared(job) != PathOf(other)
    && Shared(job) != PathOf(job.bundle) && Shared(job) != job.hostKey && Shared(job) !in job.stuck
  }

  lemma NoFragment()
    ensures SplitFragment("k") == ("k", None)
  {
    assert "k"[..0] == "";
    assert SplitFragment("") == ("", None);
  }

  /** Both configs keep their one secret in the same file. */
  ghost predicate Share(job: Job, d: Disk, other: Place) {
    && |job.fields| == 1 && other.dir == job.cfg.dir
    && Stored(d, job.cfg, job.fields[0]) == Some(FileRef("k")) && Stored(d, other, job.fields[0]) == Some(FileRef("k"))
    && Shared(job) in d
  }

  /** What the disk holds beside the configs' texts: the key in its place, and no bundle yet. */
  predicate Kept(job: Job, d: Disk) {
    && PathOf(job.cfg) in d && d[PathOf(job.cfg)].bundle == None && PathOf(job.bundle) !in d
    && job.hostKey in d && d[job.hostKey].bundle == None && d[job.hostKey].key.Some?
  }

  lemma FileConfigStores(d: Disk, cfg: Place, f: string, spec: string)
    requires BareKey(f) && PathOf(cfg) in d && d[PathOf(cfg)].text == FileConfig(f, spec)
    ensures Stored(d, cfg, f) == Some(FileRef(spec))
  {
    FileConfigReads(f, spec);
  }

  lemma SharedDiskIsKept(job: Job, other: Place, key: HostKey, secret: string)
    requires Laid(job, other)
    ensures Kept(job, SharedDisk(job, other, key, secret))
  {
  }

  lemma SharedDiskIsShared(job: Job, other: Place, key: HostKey, secret: string)
    requires WellNamed(job) && Laid(job, other)
    ensures var d := SharedDisk(job, other, key, secret); Share(job, d, other) && Kept(job, d)
  {
    var (d, f) := (SharedDisk(job, other, key, secret), job.fields[0]);
    FileConfigStores(d, job.cfg, f, "k");
    FileConfigStores(d, other, f, "k");
    SharedDiskIsKept(job, other, key, secret);
  }

  lemma SharedFetch(w: World, cfg: Place, f: string)
    requires Stored(w.disk, cfg, f) == Some(FileRef("k")) && Resolve(cfg.dir, "k") in w.disk
    ensures Referred(cfg.dir, FileRef("k")) == Some(Resolve(cfg.dir, "k"))
    ensures Fetch(w, cfg, f) == Ok(Trim(w.disk[Resolve(cfg.dir, "k")].text))
  {
    NoFragment();
  }

  lemma OnlySidecar(job: Job, d: Disk, path: string)
    requires |job.fields| == 1 && Stored(d, job.cfg, job.fields[0]) == Some(FileRef("k"))
    ensures IsSidecar(job, d, path) <==> path == Shared(job)
  {
    NoFragment();
    assert forall f :: f in job.fields <==> f == job.fields[0];
  }

  lemma SharedIsSeparate(job: Job, d: Disk, other: Place)
    requires Laid(job, other) && Share(job, d, other) && Kept(job, d)
    ensures Separate(job, d)
  {
    OnlySidecar(job, d, PathOf(job.bundle));
    OnlySidecar(job, d, job.runtimeKey);
  }

  lemma SharedLoads(job: Job, d: Disk, other: Place)
    requires Share(job, d, other)
    ensures Loads(job, d)
  {
    SharedFetch(In(job, d), job.cfg, job.fields[0]);
    OneLoads(job, d, job.fields[0]);
  }

  lemma OneLoads(job: Job, d: Disk, f: string)
    requires job.fields == [f] && Fetch(In(job, d), job.cfg, f).Ok?
    ensures Loads(job, d)
  {
  }

  lemma FreshBundleSucceeds(job: Job, d: Disk)
    requires PathOf(job.cfg) in d && Loads(job, d) && job.hostKey == job.runtimeKey
    requires job.hostKey in d && d[job.hostKey].key.Some? && PathOf(job.bundle) !in d
    ensures Succeeds(job, d) && RuntimeCanRead(job, d)
  {
    var b := SecretStore.Bundle(SecretStore.BUNDLE_VERSION, job.firstId, map[]);
    SecretStore.ResealStands(b, UsedKey(job, d).value, map[], Secrets(job, d), job.newId);
  }

  lemma SharedIsNotSpared(job: Job, d: Disk, other: Place)
    requires Laid(job, other) && Share(job, d, other)
    ensures Beside(job, d, other, job.fields[0]) && !Spared(job, d, other, job.fields[0])
  {
    SharedFetch(In(job, d), other, job.fields[0]);
    OnlySidecar(job, d, Shared(job));
  }

  lemma LostOnceGone(job: Job, d: Disk, b': Bundle, now: Disk, other: Place)
    requires Laid(job, other) && Share(job, d, other) && Sealed(job, d, b', now) && Shared(job) !in now
    ensures Fetch(In(job, now), other, job.fields[0]).Err?
  {
    OnlySidecar(job, d, PathOf(other));
    assert now[PathOf(other)] == d[PathOf(other)];
    MissingFetch(In(job, now), other, job.fields[0]);
  }

  lemma MissingFetch(w: World, cfg: Place, f: string)
    requires Stored(w.disk, cfg, f) == Some(FileRef("k")) && Resolve(cfg.dir, "k") !in w.disk
    ensures Fetch(w, cfg, f).Err?
  {
    NoFragment();
  }

  lemma SharedRunsThrough(job: Job, d: Disk, other: Place)
    requires Laid(job, other) && Share(job, d, other) && Kept(job, d)
    ensures Separate(job, d) && Succeeds(job, d) && RuntimeCanRead(job, d)
  {
    SharedIsSeparate(job, d, other);
    SharedLoads(job, d, other);
    FreshBundleSucceeds(job, d);
  }

  /**
   On every such disk, and there is one, the command succeeds with the right key in place; and once its sidecars are
   gone the other config, which it never mentions, no longer loads the secret it loaded before.
   */
  lemma SharedSidecarIsLost(job: Job, d: Disk, other: Place, now: Disk)
    requires Laid(job, other) && Share(job, d, other) && Kept(job, d)
    ensures Separate(job, d) && Succeeds(job, d) && RuntimeCanRead(job, d)
    ensures Beside(job, d, other, job.fields[0]) && !Spared(job, d, other, job.fields[0])
    ensures Fetch(In(job, d), other, job.fields[0]) == Ok(Trim(d[Shared(job)].text))
    ensures now in SealedDisks(job, KeyDisk(job, d), NewBundle(job, d)) && Gone(job, now, Shared(job)) ==>
              Fetch(In(job, now), other, job.fields[0]).Err?
  {
    SharedRunsThrough(job, d, other);
    SharedFetch(In(job, d), other, job.fields[0]);
    SharedIsNotSpared(job, d, other);
    if now in SealedDisks(job, KeyDisk(job, d), NewBundle(job, d)) && Gone(job, now, Shared(job)) {
      LostOnceGone(job, d, NewBundle(job, d), now, other);
    }
  }
}
