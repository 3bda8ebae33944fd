/** A config whose references cross loses a secret between the bundle's replacement and its own. */
module SealCrossing {
  import opened Basics
  import opened Results
  import opened Text
  import opened Rewriter
  import opened ConfigText
  import SecretStore
  import opened SealCommand
  import opened SealRun

  /** A config of two sealed references. */
  function TwoReferences(f: string, spec: string, f': string, spec': string): string {
    Unlines([SealedLine("", f, spec), SealedLine("", f', spec')])
  }

  lemma ReferenceLine(f: string, spec: string, g: string)
    requires BareKey(f) && BareKey(g)
    ensures var line := SealedLine("", f, spec); '\n' !in line && StripCr(line) == line && (Matches(line, g) <==> g == f)
  {
    AssignedIsAssignment(spec);
    AssignedStaysOnItsLine(spec);
    MatchesItsKey("", f, Assigned(spec), g);
    assert forall i :: 0 <= i < |f| ==> IsBare(f[i]);
  }

  lemma ReferenceLineReads(f: string, spec: string)
    requires BareKey(f) && Matches(SealedLine("", f, spec), f)
    ensures ParseValue(ValueText(SealedLine("", f, spec), f)) == Some(SealedRef(spec))
  {
    TrimsItsIndent("", f + Assigned(spec));
    assert (f + Assigned(spec))[|f|..] == Assigned(spec);
    AfterEquals(spec);
    AssignedParses(spec);
  }

  lemma TwoReferencesRead(f: string, spec: string, f': string, spec': string)
    requires BareKey(f) && BareKey(f') && f != f'
    ensures SourceOf(TwoReferences(f, spec, f', spec'), f) == Some(SealedRef(spec))
    ensures SourceOf(TwoReferences(f, spec, f', spec'), f') == Some(SealedRef(spec'))
  {
    var a, b := SealedLine("", f, spec), SealedLine("", f', spec');
    ReferenceLine(f, spec, f);
    ReferenceLine(f, spec, f');
    ReferenceLine(f', spec', f);
    ReferenceLine(f', spec', f');
    ReferenceLineReads(f, spec);
    ReferenceLineReads(f', spec');
    UnlinesReadsBack([a, b]);
    assert StripEach([a, b]) == [a, b];
    TwoHolders(a, b, f);
    TwoHolders(a, b, f');
  }

  lemma TwoHolders(a: string, b: string, f: string)
    ensures Holders([a, b], f) == (if Matches(a, f) then [a] else []) + (if Matches(b, f) then [b] else [])
  {
    assert [a, b][1..] == [b] && [b][1..] == [];
    assert Holders([b], f) == if Matches(b, f) then [b] else [];
  }

  /** The bundle holds the entry the second field is about to get, and an older one. */
  function CrossedBundle(job: Job, key: HostKey, id: string): Bundle
    requires |job.fields| == 2
  {
    SecretStore.Bundle(1, id, SecretStore.SealAllUnder(key, 1, id, map[EntryName(job.ns, job.fields[1]) := "A", "x" := "B"]))
  }

  /** The first field is stored under the entry the second is about to get; the second under the older entry. */
  function CrossedDisk(job: Job, key: HostKey, id: string): Disk
    requires |job.fields| == 2
  {
    var (f, f') := (job.fields[0], job.fields[1]);
    var bundle := BundleRef(job.cfg, job.bundle);
    map[
      PathOf(job.cfg) := File(TwoReferences(f, Spec(bundle, EntryName(job.ns, f')), f', Spec(bundle, "x")), None, None),
      PathOf(job.bundle) := File("", Some(CrossedBundle(job, key, id)), None),
      job.hostKey := File("", None, Some(key)),
      job.runtimeKey := File("", None, Some(key))
    ]
  }

  /** The config, the bundle and the key files are different files; the two keys may be one. */
  predicate PathsDiffer(job: Job) {
    && PathOf(job.cfg) != PathOf(job.bundle) && PathOf(job.cfg) != job.hostKey && PathOf(job.bundle) != job.hostKey
    && PathOf(job.cfg) != job.runtimeKey && PathOf(job.bundle) != job.runtimeKey
  }

  lemma EntryIsNotBare(ns: string, f: string)
    ensures EntryName(ns, f) != "x"
  {
    assert EntryName(ns, f)[|ns|] == '.';
    assert forall i :: 0 <= i < |"x"| ==> "x"[i] == 'x';
  }

  lemma SpecPoints(job: Job, g: string)
    requires WellNamed(job) && '#' !in g
    ensures Points(job.cfg.dir, SealedRef(Spec(BundleRef(job.cfg, job.bundle), g)), PathOf(job.bundle)) == Some(g)
  {
    SpecSplits(BundleRef(job.cfg, job.bundle), g);
    ReferenceResolves(job.cfg, job.bundle);
  }

  lemma CrossedSources(job: Job, d: Disk, f: string, f': string, g: string)
    requires WellNamed(job) && BareKey(f) && BareKey(f') && f != f' && '#' !in g && PathOf(job.cfg) in d
    requires var bundle := BundleRef(job.cfg, job.bundle);
             d[PathOf(job.cfg)].text == TwoReferences(f, Spec(bundle, g), f', Spec(bundle, "x"))
    ensures SealedAt(job, d, job.cfg, f, g) && SealedAt(job, d, job.cfg, f', "x")
  {
    var bundle := BundleRef(job.cfg, job.bundle);
    TwoReferencesRead(f, Spec(bundle, g), f', Spec(bundle, "x"));
    SpecPoints(job, g);
    SpecPoints(job, "x");
  }

  lemma CrossedEntries(job: Job, d: Disk, key: HostKey, id: string, g: string)
    requires g != "x" && PathOf(job.bundle) in d && KeyAt(d, job.runtimeKey) == Some(key)
    requires d[PathOf(job.bundle)].bundle
          == Some(SecretStore.Bundle(1, id, SecretStore.SealAllUnder(key, 1, id, map[g := "A", "x" := "B"])))
    ensures ReadEntry(job, d, g) == Ok("A") && ReadEntry(job, d, "x") == Ok("B")
  {
    EntriesOpen(job, key, id, g);
  }

  lemma EntriesOpen(job: Job, key: HostKey, id: string, g: string)
    requires g != "x"
    ensures var b := SecretStore.Bundle(1, id, SecretStore.SealAllUnder(key, 1, id, map[g := "A", "x" := "B"]));
            SecretStore.OpenField(b, key, g) == Ok("A") && SecretStore.OpenField(b, key, "x") == Ok("B")
  {
    var texts := map[g := "A", "x" := "B"];
    var b := SecretStore.Bundle(1, id, SecretStore.SealAllUnder(key, 1, id, texts));
    SecretStore.StandingOpens(b, key, texts, g);
    SecretStore.StandingOpens(b, key, texts, "x");
  }

  /** Two fields stored in the bundle, the first under the entry the second is about to get, with different values. */
  ghost predicate Crossed(job: Job, d: Disk) {
    && |job.fields| == 2
    && SealedAt(job, d, job.cfg, job.fields[0], EntryName(job.ns, job.fields[1])) && SealedAt(job, d, job.cfg, job.fields[1], "x")
    && ReadEntry(job, d, EntryName(job.ns, job.fields[1])) == Ok("A") && ReadEntry(job, d, "x") == Ok("B")
  }

  lemma CrossedDiskIsCrossed(job: Job, key: HostKey, id: string)
    requires WellNamed(job) && |job.fields| == 2 && PathsDiffer(job)
    ensures Crossed(job, CrossedDisk(job, key, id))
  {
    var d := CrossedDisk(job, key, id);
    var (f, f') := (job.fields[0], job.fields[1]);
    NoHash(job, f');
    CrossedSources(job, d, f, f', EntryName(job.ns, f'));
    EntryIsNotBare(job.ns, f');
    CrossedEntries(job, d, key, id, EntryName(job.ns, f'));
  }

  lemma CrossedFetches(job: Job, d: Disk)
    requires Crossed(job, d)
    ensures Fetch(In(job, d), job.cfg, job.fields[0]) == Ok("A") && Fetch(In(job, d), job.cfg, job.fields[1]) == Ok("B")
  {
    SealedFetch(job, d, job.cfg, job.fields[0], EntryName(job.ns, job.fields[1]));
    SealedFetch(job, d, job.cfg, job.fields[1], "x");
  }

  lemma CrossedLoads(job: Job, d: Disk)
    requires Crossed(job, d)
    ensures Loads(job, d)
  {
    CrossedFetches(job, d);
    TwoLoad(job, d, job.fields[0], job.fields[1]);
  }

  lemma TwoLoad(job: Job, d: Disk, f: string, f': string)
    requires job.fields == [f, f'] && Fetch(In(job, d), job.cfg, f).Ok? && Fetch(In(job, d), job.cfg, f').Ok?
    ensures Loads(job, d)
  {
  }

  lemma CrossedIsCrossing(job: Job, d: Disk)
    requires Crossed(job, d)
    ensures !NoCrossing(job, d)
  {
    CrossedFetches(job, d);
    CrossingIsSeen(job, d, job.fields[0], job.fields[1]);
  }

  lemma CrossingIsSeen(job: Job, d: Disk, f: string, f': string)
    requires f in job.fields && f' in job.fields && SealedAt(job, d, job.cfg, f, EntryName(job.ns, f'))
    requires Fetch(In(job, d), job.cfg, f') != Fetch(In(job, d), job.cfg, f)
    ensures !NoCrossing(job, d)
  {
  }

  lemma SealedIsNoFile(job: Job, d: Disk, f: string, g: string)
    requires SealedAt(job, d, job.cfg, f, g)
    ensures Stored(d, job.cfg, f).Some? && !Stored(d, job.cfg, f).value.FileRef?
  {
  }

  lemma NoFilesNoSidecars(job: Job, d: Disk, f: string, f': string, path: string)
    requires job.fields == [f, f'] && Stored(d, job.cfg, f).Some? && !Stored(d, job.cfg, f).value.FileRef?
    requires Stored(d, job.cfg, f').Some? && !Stored(d, job.cfg, f').value.FileRef?
    ensures !IsSidecar(job, d, path)
  {
  }

  lemma CrossedIsSeparate(job: Job, d: Disk)
    requires |job.fields| == 2 && PathsDiffer(job) && PathOf(job.cfg) in d && d[PathOf(job.cfg)].bundle == None
    requires SealedAt(job, d, job.cfg, job.fields[0], EntryName(job.ns, job.fields[1])) && SealedAt(job, d, job.cfg, job.fields[1], "x")
    requires job.runtimeKey in d && d[job.runtimeKey].bundle == None
    ensures Separate(job, d)
  {
    var (f, f') := (job.fields[0], job.fields[1]);
    SealedIsNoFile(job, d, f, EntryName(job.ns, f'));
    SealedIsNoFile(job, d, f', "x");
    NoFilesNoSidecars(job, d, f, f', PathOf(job.bundle));
    NoFilesNoSidecars(job, d, f, f', job.runtimeKey);
  }

  lemma CrossedSucceeds(job: Job, key: HostKey, id: string)
    requires WellNamed(job) && |job.fields| == 2 && PathsDiffer(job) && Loads(job, CrossedDisk(job, key, id))
    ensures Succeeds(job, CrossedDisk(job, key, id)) && RuntimeCanRead(job, CrossedDisk(job, key, id))
  {
    var (d, b) := (CrossedDisk(job, key, id), CrossedBundle(job, key, id));
    var texts := map[EntryName(job.ns, job.fields[1]) := "A", "x" := "B"];
    SecretStore.ResealStands(b, key, texts, Secrets(job, d), job.newId);
  }

  lemma CrossedIsUnsafe(job: Job, d: Disk)
    requires WellNamed(job) && job.hostKey in d && Separate(job, d) && Succeeds(job, d) && RuntimeCanRead(job, d) && !NoCrossing(job, d)
    ensures d[PathOf(job.bundle) := BundleFile(job, NewBundle(job, d))] !in SafeDisks(job, d)
  {
    StagesAreSafe(job, d);
    ConditionsCombine(job, d);
  }

  /**
   The command runs through on such a disk, with the runtime's key in place; but with the bundle replaced and the
   config not yet, the config's secrets are no longer what they were.
   */
  lemma CrossingLosesASecret(job: Job, key: HostKey, id: string)
    requires WellNamed(job) && |job.fields| == 2 && PathsDiffer(job)
    ensures var d := CrossedDisk(job, key, id);
            && Separate(job, d) && Succeeds(job, d) && RuntimeCanRead(job, d) && !NoCrossing(job, d)
            && d[PathOf(job.bundle) := BundleFile(job, NewBundle(job, d))] !in SafeDisks(job, d)
  {
    var d := CrossedDisk(job, key, id);
    CrossedDiskIsCrossed(job, key, id);
    CrossedLoads(job, d);
    CrossedIsSeparate(job, d);
    CrossedIsCrossing(job, d);
    CrossedSucceeds(job, key, id);
    CrossedIsUnsafe(job, d);
  }
}
