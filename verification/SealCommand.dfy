/** The seal command as a sequence of file replacements, and what a reader finds after each of them. */
module SealCommand {
  import opened Basics
  import opened Results
  import opened Text
  import opened Rewriter
  import opened ConfigText
  import SecretStore

  type HostKey = SecretStore.HostKey
  type Bundle = SecretStore.Bundle

  /** A file's text, and what it holds when read as a sealed bundle or as a host key. */
  datatype File = File(text: string, bundle: Option<Bundle>, key: Option<HostKey>)

  type Disk = map<string, File>

  /** What loading a config depends on; `hostKey` is where a running process looks for its key. */
  datatype World = World(disk: Disk, env: map<string, string>, hostKey: string)

  function KeyAt(disk: Disk, path: string): Option<HostKey> {
    if path in disk then disk[path].key else None
  }

  datatype Place = Place(dir: string, name: string)

  function PathOf(p: Place): string {
    p.dir + ['/'] + p.name
  }

  predicate Absolute(path: string) {
    ['/'] <= path
  }

  function Resolve(base: string, spec: string): string {
    if Absolute(spec) then spec else base + ['/'] + spec
  }

  // ----- loading -----

  datatype ConfigError = Missing | Malformed | SecretRead | SecretHostKey | SecretSeal

  function TrimEnd(s: string): string {
    if s != "" && IsWhite(s[|s| - 1]) then TrimEnd(s[..|s| - 1]) else s
  }

  function Trim(s: string): string {
    TrimEnd(TrimStart(s))
  }

  /** The bundle entry a sealed reference names, if the path holds a bundle that has it. */
  function OpenSealed(w: World, base: string, spec: string): Result<string, ConfigError> {
    var (path, fragment) := SplitFragment(spec);
    var file := Resolve(base, path);
    if fragment.None? || file !in w.disk || w.disk[file].bundle.None? then Err(SecretSeal)
    else
      var b := w.disk[file].bundle.value;
      if b.version != SecretStore.BUNDLE_VERSION || fragment.value !in b.entries then Err(SecretSeal)
      else if KeyAt(w.disk, w.hostKey).None? then Err(SecretHostKey)
      else
        var text := SecretStore.OpenField(b, KeyAt(w.disk, w.hostKey).value, fragment.value);
        if text.Ok? then Ok(text.value) else Err(SecretSeal)
  }

  function ReadFile(w: World, base: string, spec: string): Result<string, ConfigError> {
    var (path, fragment) := SplitFragment(spec);
    var file := Resolve(base, path);
    if file !in w.disk then Err(SecretRead)
    else if fragment.None? then Ok(Trim(w.disk[file].text))
    else
      var source := SourceOf(w.disk[file].text, fragment.value);
      if source.Some? && source.value.Inline? then Ok(source.value.text) else Err(SecretRead)
  }

  function ResolveSource(w: World, base: string, source: Source): Result<string, ConfigError> {
    match source
    case Inline(text) => Ok(text)
    case FileRef(spec) => ReadFile(w, base, spec)
    case EnvRef(name) => if name in w.env then Ok(Trim(w.env[name])) else Err(SecretRead)
    case SealedRef(spec) => OpenSealed(w, base, spec)
  }

  /** The secret a config resolves a field to. */
  function Fetch(w: World, cfg: Place, field: string): Result<string, ConfigError> {
    if PathOf(cfg) !in w.disk then Err(Missing)
    else
      var source := SourceOf(w.disk[PathOf(cfg)].text, field);
      if source.None? then Err(Malformed) else ResolveSource(w, cfg.dir, source.value)
  }

  // ----- naming -----

  /** The reference a config uses for its bundle: the bare name beside the config, the whole path elsewhere. */
  function BundleRef(cfg: Place, bundle: Place): string {
    if cfg.dir == bundle.dir then bundle.name else PathOf(bundle)
  }

  lemma ReferenceResolves(cfg: Place, bundle: Place)
    requires Absolute(PathOf(bundle)) && !Absolute(bundle.name)
    ensures Resolve(cfg.dir, BundleRef(cfg, bundle)) == PathOf(bundle)
  {
  }

  function EntryName(ns: string, field: string): string {
    ns + ['.'] + field
  }

  /** Entries of different namespaces never meet, nor does one meet a bare entry. */
  lemma NamespacesAreDisjoint(ns: string, f: string, ns': string, f': string, bare: string)
    requires '.' !in ns && '.' !in ns' && '.' !in bare
    ensures EntryName(ns, f) == EntryName(ns', f') ==> ns == ns' && f == f'
    ensures EntryName(ns, f) != bare
  {
    if EntryName(ns, f) == EntryName(ns', f') {
      CutsAlike(ns, f, ns', f', '.');
    }
    assert EntryName(ns, f)[|ns|] == '.';
  }

  // ----- what a fetch reads -----

  /** The file a source refers to. */
  function Referred(base: string, source: Source): Option<string> {
    if source.FileRef? || source.SealedRef? then Some(Resolve(base, SplitFragment(source.spec).0)) else None
  }

  /** The paths resolving a source reads. */
  function TouchedBy(base: string, source: Source, hostKey: string): set<string> {
    (if Referred(base, source).Some? then {Referred(base, source).value} else {})
    + (if source.SealedRef? then {hostKey} else {})
  }

  ghost predicate Agree(a: Disk, b: Disk, paths: set<string>) {
    forall p :: p in paths ==> (p in a <==> p in b) && (p in a ==> a[p] == b[p])
  }

  lemma ResolveDepends(w: World, disk: Disk, base: string, source: Source)
    requires Agree(w.disk, disk, TouchedBy(base, source, w.hostKey))
    ensures ResolveSource(w.(disk := disk), base, source) == ResolveSource(w, base, source)
  {
    match source
    case Inline(_) =>
    case EnvRef(_) =>
    case FileRef(spec) => assert Resolve(base, SplitFragment(spec).0) in TouchedBy(base, source, w.hostKey);
    case SealedRef(spec) =>
      assert Resolve(base, SplitFragment(spec).0) in TouchedBy(base, source, w.hostKey);
      assert w.hostKey in TouchedBy(base, source, w.hostKey);
  }

  lemma TouchedIsThere(w: World, base: string, source: Source)
    requires ResolveSource(w, base, source).Ok?
    ensures forall p :: p in TouchedBy(base, source, w.hostKey) ==> p in w.disk
  {
  }

  /** The entry of the bundle at `path` that a source names. */
  function Points(base: string, source: Source, path: string): Option<string> {
    if source.SealedRef? && Resolve(base, SplitFragment(source.spec).0) == path then SplitFragment(source.spec).1 else None
  }

  // ----- replacing the bundle -----

  /** `b` is what the bundle path holds, an empty bundle if nothing is there. */
  ghost predicate Holds(disk: Disk, path: string, b: Bundle) {
    && b.version == SecretStore.BUNDLE_VERSION
    && if path in disk then disk[path].bundle == Some(b) else b.entries == map[]
  }

  function WithBundle(w: World, path: string, b: Bundle, text: string): World {
    w.(disk := w.disk[path := File(text, Some(b), None)])
  }

  /** `b'` is the re-seal under `key` of the bundle at the path. */
  ghost predicate Resealed(disk: Disk, path: string, key: HostKey, b: Bundle, secrets: seq<SecretStore.Secret>, id: string, b': Bundle) {
    Holds(disk, path, b) && SecretStore.Reseal(b, key, secrets, id) == Some(b')
  }

  /** What a resolved source resolves to once the bundle is replaced. */
  lemma ResolveAfterReseal(w: World, base: string, source: Source, path: string, text: string,
                           key: HostKey, b: Bundle, secrets: seq<SecretStore.Secret>, id: string, b': Bundle)
    requires Resealed(w.disk, path, key, b, secrets, id, b') && ResolveSource(w, base, source).Ok?
    requires w.hostKey in w.disk ==> path != w.hostKey
    requires source.FileRef? ==> Referred(base, source) != Some(path)
    ensures var g := Points(base, source, path);
            var after := ResolveSource(WithBundle(w, path, b', text), base, source);
            if g.None? || !SecretStore.Names(secrets, g.value) then after == ResolveSource(w, base, source)
            else if KeyAt(w.disk, w.hostKey) != Some(key) then after.Err?
            else g.value in SecretStore.Written(map[], secrets) && after == Ok(SecretStore.Written(map[], secrets)[g.value])
  {
    if source.SealedRef? && Referred(base, source) == Some(path) {
      EntryAfterReseal(b, key, KeyAt(w.disk, w.hostKey).value, secrets, id, SplitFragment(source.spec).1.value);
    } else {
      ResolveDepends(w, WithBundle(w, path, b', text).disk, base, source);
    }
  }

  /** The same for one entry: a retained entry that opens under another key stops the re-seal, a named one stops opening. */
  lemma EntryAfterReseal(b: Bundle, key: HostKey, reader: HostKey, secrets: seq<SecretStore.Secret>, id: string, g: string)
    requires SecretStore.Reseal(b, key, secrets, id).Some?
    ensures var b' := SecretStore.Reseal(b, key, secrets, id).value;
            if SecretStore.Names(secrets, g) then
              g in SecretStore.Written(map[], secrets)
              && (if reader == key then SecretStore.OpenField(b', reader, g) == Ok(SecretStore.Written(map[], secrets)[g])
                  else SecretStore.OpenField(b', reader, g).Err?)
            else SecretStore.OpenField(b, reader, g).Ok? ==>
              reader == key && SecretStore.OpenField(b', reader, g) == SecretStore.OpenField(b, reader, g)
  {
    SecretStore.ResealOpens(b, key, secrets, id, g);
    if SecretStore.Names(secrets, g) && reader != key {
      SecretStore.ResealBindsTheKey(b, key, secrets, id, g, reader);
    }
  }

  // ----- the command -----

  /**
   One run: what is sealed where, and everything drawn or decided outside. The command seals under the key at
   `hostKey`, which its option may set; configs are always loaded under the key at `runtimeKey`.
   */
  datatype Job = Job(
    cfg: Place,
    bundle: Place,
    fields: seq<string>,
    ns: string,
    env: map<string, string>,
    hostKey: string,
    runtimeKey: string,
    newKey: HostKey,
    keyText: string,
    firstId: string,
    newId: string,
    bundleText: string,
    stuck: set<string>)

  function In(job: Job, disk: Disk): World {
    World(disk, job.env, job.runtimeKey)
  }

  function Targets(job: Job): seq<Target> {
    seq(|job.fields|, i requires 0 <= i < |job.fields| => Target(job.fields[i], EntryName(job.ns, job.fields[i])))
  }

  predicate Loads(job: Job, disk: Disk) {
    forall f :: f in job.fields ==> Fetch(In(job, disk), job.cfg, f).Ok?
  }

  function Secrets(job: Job, disk: Disk): seq<SecretStore.Secret>
    requires Loads(job, disk)
  {
    seq(|job.fields|, i requires 0 <= i < |job.fields| =>
      SecretStore.Secret(EntryName(job.ns, job.fields[i]), Fetch(In(job, disk), job.cfg, job.fields[i]).value))
  }

  /** The path parts of the plaintext files a config refers to. */
  function Sidecars(cfg: Place, text: string, fields: seq<string>): seq<string> {
    if fields == [] then []
    else
      var rest := Sidecars(cfg, text, fields[..|fields| - 1]);
      var source := SourceOf(text, fields[|fields| - 1]);
      if source.None? || !source.value.FileRef? then rest
      else
        var path := SplitFragment(source.value.spec).0;
        if path in rest then rest else rest + [path]
  }

  class Storage {
    var disk: Disk
    /** Every disk a crash could leave behind, oldest first. */
    ghost var trail: seq<Disk>

    /** The atomic replacement by rename. */
    method Replace(path: string, file: File)
      modifies this
      ensures disk == old(disk)[path := file] && trail == old(trail) + [disk]
    {
      disk := disk[path := file];
      trail := trail + [disk];
    }

    method Remove(path: string)
      modifies this
      ensures disk == old(disk) - {path} && trail == old(trail) + [disk]
    {
      disk := disk - {path};
      trail := trail + [disk];
    }
  }

  // ----- what must survive -----

  /** The source a config file stores for a field. */
  function Stored(disk: Disk, cfg: Place, field: string): Option<Source> {
    if PathOf(cfg) in disk then SourceOf(disk[PathOf(cfg)].text, field) else None
  }

  ghost predicate Names(job: Job, g: string) {
    exists f :: f in job.fields && g == EntryName(job.ns, f)
  }

  /** The config at `cfg` keeps `field` in this job's bundle, under the entry `g`. */
  ghost predicate SealedAt(job: Job, disk: Disk, cfg: Place, field: string, g: string) {
    var source := Stored(disk, cfg, field);
    source.Some? && Points(cfg.dir, source.value, PathOf(job.bundle)) == Some(g)
  }

  /** What reading the entry `g` of the job's bundle gives. */
  function ReadEntry(job: Job, disk: Disk, g: string): Result<string, ConfigError> {
    var path := PathOf(job.bundle);
    if path !in disk || disk[path].bundle.None? then Err(SecretSeal)
    else
      var b := disk[path].bundle.value;
      if b.version != SecretStore.BUNDLE_VERSION || g !in b.entries then Err(SecretSeal)
      else if KeyAt(disk, job.runtimeKey).None? then Err(SecretHostKey)
      else
        var text := SecretStore.OpenField(b, KeyAt(disk, job.runtimeKey).value, g);
        if text.Ok? then Ok(text.value) else Err(SecretSeal)
  }

  lemma SealedFetch(job: Job, disk: Disk, cfg: Place, field: string, g: string)
    requires SealedAt(job, disk, cfg, field, g)
    ensures Fetch(In(job, disk), cfg, field) == ReadEntry(job, disk, g)
  {
  }

  ghost predicate IsSidecar(job: Job, disk: Disk, path: string) {
    exists f :: f in job.fields && Stored(disk, job.cfg, f).Some? && Stored(disk, job.cfg, f).value.FileRef?
                && Referred(job.cfg.dir, Stored(disk, job.cfg, f).value) == Some(path)
  }

  /** A sidecar the command deletes. */
  ghost predicate Removed(job: Job, disk: Disk, path: string) {
    IsSidecar(job, disk, path) && path != PathOf(job.cfg) && path !in job.stuck
  }

  /**
   A secret another config resolves to, wherever it keeps it: inline, in the environment, in a file, or in this or
   another bundle. Only what the command rewrites for itself is left out: the config, the bundle as a plain text, and
   the entries of the job.
   */
  ghost predicate Beside(job: Job, disk: Disk, cfg: Place, field: string) {
    && Fetch(In(job, disk), cfg, field).Ok? && PathOf(cfg) != PathOf(job.cfg) && PathOf(cfg) != PathOf(job.bundle)
    && var source := Stored(disk, cfg, field).value;
       && (forall g :: Points(cfg.dir, source, PathOf(job.bundle)) == Some(g) ==> !Names(job, g))
       && (source.FileRef? ==> Referred(cfg.dir, source) != Some(PathOf(job.bundle))
                               && Referred(cfg.dir, source) != Some(PathOf(job.cfg)))
  }

  /** Neither the other config itself nor the file it keeps the secret in is a sidecar that goes. */
  ghost predicate Spared(job: Job, disk: Disk, cfg: Place, field: string) {
    && !Removed(job, disk, PathOf(cfg))
    && (Stored(disk, cfg, field).Some? ==>
          forall r :: Referred(cfg.dir, Stored(disk, cfg, field).value) == Some(r) ==> !Removed(job, disk, r))
  }

  /** A crash now loses nothing: the config, and every other config that no removal touches, resolve as before. */
  ghost predicate Intact(job: Job, before: Disk, now: Disk) {
    OwnIntact(job, before, now) && OthersIntact(job, before, now)
  }

  ghost predicate OwnIntact(job: Job, before: Disk, now: Disk) {
    forall f :: f in job.fields ==> Fetch(In(job, now), job.cfg, f) == Fetch(In(job, before), job.cfg, f)
  }

  ghost predicate OthersIntact(job: Job, before: Disk, now: Disk) {
    forall cfg, f :: Beside(job, before, cfg, f) && Spared(job, before, cfg, f) ==>
      Fetch(In(job, now), cfg, f) == Fetch(In(job, before), cfg, f)
  }

  /** No field is stored under the entry that a field with another value is about to get. */
  ghost predicate NoCrossing(job: Job, disk: Disk) {
    forall f, f' :: f in job.fields && f' in job.fields && SealedAt(job, disk, job.cfg, f, EntryName(job.ns, f')) ==>
      Fetch(In(job, disk), job.cfg, f') == Fetch(In(job, disk), job.cfg, f)
  }

  /** The process that will load the config holds the key it was sealed under. */
  predicate KeyInPlace(job: Job, disk: Disk, key: HostKey) {
    KeyAt(disk, job.runtimeKey) == Some(key)
  }

  /** A field already stored under an entry about to be written keeps its value, and the key it is read under. */
  ghost predicate Undisturbed(job: Job, disk: Disk, key: HostKey) {
    forall f, f' :: f in job.fields && f' in job.fields && SealedAt(job, disk, job.cfg, f, EntryName(job.ns, f')) ==>
      KeyInPlace(job, disk, key) && Fetch(In(job, disk), job.cfg, f') == Fetch(In(job, disk), job.cfg, f)
  }

  /** Sidecars are neither the bundle nor the runtime's key, and no file is taken for two things. */
  ghost predicate Separate(job: Job, disk: Disk) {
    && !IsSidecar(job, disk, PathOf(job.bundle)) && !IsSidecar(job, disk, job.runtimeKey) && PathOf(job.cfg) != job.runtimeKey
    && (PathOf(job.cfg) in disk ==> disk[PathOf(job.cfg)].bundle == None)
    && (job.runtimeKey in disk ==> disk[job.runtimeKey].bundle == None)
  }

  predicate WellNamed(job: Job) {
    && (forall f :: f in job.fields ==> BareKey(f)) && '#' !in job.ns
    && (forall i, j :: 0 <= i < j < |job.fields| ==> job.fields[i] != job.fields[j])
    && Absolute(PathOf(job.bundle)) && !Absolute(job.bundle.name)
  }

  // ----- the host key -----

  lemma IntactAfterKey(job: Job, d0: Disk, file: File)
    requires Loads(job, d0) && job.hostKey !in d0
    ensures Intact(job, d0, d0[job.hostKey := file])
  {
    var d := d0[job.hostKey := file];
    forall cfg, f | Fetch(In(job, d0), cfg, f).Ok? ensures Fetch(In(job, d), cfg, f) == Fetch(In(job, d0), cfg, f) {
      FetchSurvivesNewFile(In(job, d0), cfg, f, job.hostKey, file);
    }
  }

  lemma FetchSurvivesNewFile(w: World, cfg: Place, field: string, path: string, file: File)
    requires Fetch(w, cfg, field).Ok? && path !in w.disk
    ensures Fetch(w.(disk := w.disk[path := file]), cfg, field) == Fetch(w, cfg, field)
  {
    var source := SourceOf(w.disk[PathOf(cfg)].text, field).value;
    TouchedIsThere(w, cfg.dir, source);
    ResolveDepends(w, w.disk[path := file], cfg.dir, source);
  }

  // ----- the bundle -----

  lemma EntryNamesDiffer(ns: string, f: string, f': string)
    requires EntryName(ns, f) == EntryName(ns, f')
    ensures f == f'
  {
    assert f == EntryName(ns, f)[|ns| + 1..] && f' == EntryName(ns, f')[|ns| + 1..];
  }

  lemma NamesAgree(job: Job, disk: Disk, g: string)
    requires Loads(job, disk)
    ensures SecretStore.Names(Secrets(job, disk), g) <==> Names(job, g)
  {
    var secrets := Secrets(job, disk);
    if Names(job, g) {
      var f :| f in job.fields && g == EntryName(job.ns, f);
      var i :| 0 <= i < |job.fields| && job.fields[i] == f;
      assert secrets[i].field == g;
    }
  }

  lemma SecretIsWritten(job: Job, disk: Disk, f: string)
    requires WellNamed(job) && Loads(job, disk) && f in job.fields
    ensures var m := SecretStore.Written(map[], Secrets(job, disk));
            EntryName(job.ns, f) in m && Ok(m[EntryName(job.ns, f)]) == Fetch(In(job, disk), job.cfg, f)
  {
    var secrets := Secrets(job, disk);
    var i :| 0 <= i < |job.fields| && job.fields[i] == f;
    forall j, k | 0 <= j < k < |secrets| ensures secrets[j].field != secrets[k].field {
      if secrets[j].field == secrets[k].field {
        EntryNamesDiffer(job.ns, job.fields[j], job.fields[k]);
      }
    }
    SecretStore.WrittenOnce(secrets, i);
  }

  /** The job's re-seal of `b` in the bundle file. */
  ghost predicate Sealing(job: Job, d: Disk, key: HostKey, b: Bundle, b': Bundle)
    requires Loads(job, d)
  {
    Resealed(d, PathOf(job.bundle), key, b, Secrets(job, d), job.newId, b')
  }

  function BundleFile(job: Job, b: Bundle): File {
    File(job.bundleText, Some(b), None)
  }

  lemma BundleIsApart(job: Job, d: Disk, b: Bundle)
    requires Separate(job, d) && Holds(d, PathOf(job.bundle), b)
    ensures PathOf(job.cfg) in d ==> PathOf(job.bundle) != PathOf(job.cfg)
    ensures job.runtimeKey in d ==> PathOf(job.bundle) != job.runtimeKey
  {
  }

  /** Between the bundle's replacement and the config's: exactly when the config still resolves a field as before. */
  lemma OwnAfterBundle(job: Job, d: Disk, key: HostKey, b: Bundle, b': Bundle, f: string)
    requires WellNamed(job) && Separate(job, d) && Loads(job, d) && Sealing(job, d, key, b, b') && f in job.fields
    ensures var d' := d[PathOf(job.bundle) := BundleFile(job, b')];
            Fetch(In(job, d'), job.cfg, f) == Fetch(In(job, d), job.cfg, f)
            <==> forall f' :: f' in job.fields && SealedAt(job, d, job.cfg, f, EntryName(job.ns, f')) ==>
                   KeyInPlace(job, d, key) && Fetch(In(job, d), job.cfg, f') == Fetch(In(job, d), job.cfg, f)
  {
    var source := Stored(d, job.cfg, f).value;
    var path := PathOf(job.bundle);
    BundleIsApart(job, d, b);
    assert source.FileRef? && Referred(job.cfg.dir, source) == Some(path) ==> IsSidecar(job, d, path);
    ResolveAfterReseal(In(job, d), job.cfg.dir, source, path, job.bundleText, key, b, Secrets(job, d), job.newId, b');
    var g := Points(job.cfg.dir, source, path);
    if g.Some? {
      NamesAgree(job, d, g.value);
      if Names(job, g.value) {
        var f' :| f' in job.fields && g.value == EntryName(job.ns, f');
        SecretIsWritten(job, d, f');
        assert SealedAt(job, d, job.cfg, f, EntryName(job.ns, f'));
        forall f'' | SealedAt(job, d, job.cfg, f, EntryName(job.ns, f'')) ensures f'' == f' {
          EntryNamesDiffer(job.ns, f', f'');
        }
      }
    }
  }

  /** What each entry of the replaced bundle reads as, wherever the runtime's key has stayed what it was. */
  lemma EntryAfterBundle(job: Job, d: Disk, key: HostKey, b: Bundle, b': Bundle, d': Disk, g: string)
    requires Loads(job, d) && Sealing(job, d, key, b, b')
    requires PathOf(job.bundle) in d' && d'[PathOf(job.bundle)] == BundleFile(job, b')
    requires KeyAt(d', job.runtimeKey) == KeyAt(d, job.runtimeKey)
    ensures var m := SecretStore.Written(map[], Secrets(job, d));
            if Names(job, g) then
              g in m && (if KeyInPlace(job, d, key) then ReadEntry(job, d', g) == Ok(m[g]) else ReadEntry(job, d', g).Err?)
            else ReadEntry(job, d, g).Ok? ==> ReadEntry(job, d', g) == ReadEntry(job, d, g)
  {
    NamesAgree(job, d, g);
    if KeyAt(d, job.runtimeKey).Some? {
      EntryAfterReseal(b, key, KeyAt(d, job.runtimeKey).value, Secrets(job, d), job.newId, g);
    } else {
      EntryAfterReseal(b, key, key, Secrets(job, d), job.newId, g);
    }
  }

  /** With only the bundle replaced every other config resolves as before. */
  lemma BesideAfterBundle(job: Job, d: Disk, key: HostKey, b: Bundle, b': Bundle, cfg: Place, f: string)
    requires Separate(job, d) && Loads(job, d) && Sealing(job, d, key, b, b') && Beside(job, d, cfg, f)
    ensures var d' := d[PathOf(job.bundle) := BundleFile(job, b')]; Fetch(In(job, d'), cfg, f) == Fetch(In(job, d), cfg, f)
  {
    var source := Stored(d, cfg, f).value;
    var path := PathOf(job.bundle);
    BundleIsApart(job, d, b);
    ResolveAfterReseal(In(job, d), cfg.dir, source, path, job.bundleText, key, b, Secrets(job, d), job.newId, b');
    var g := Points(cfg.dir, source, path);
    if g.Some? {
      NamesAgree(job, d, g.value);
    }
  }

  /**
   Replacing the bundle alone is safe if and only if no field of the config already stored under one of the new
   entries changes its value or the key it is read under; the other configs are always safe.
   */
  lemma BundleReplaceIsSafe(job: Job, d: Disk, key: HostKey, b: Bundle, b': Bundle)
    requires WellNamed(job) && Separate(job, d) && Loads(job, d) && Sealing(job, d, key, b, b')
    ensures OwnIntact(job, d, d[PathOf(job.bundle) := BundleFile(job, b')]) <==> Undisturbed(job, d, key)
    ensures OthersIntact(job, d, d[PathOf(job.bundle) := BundleFile(job, b')])
  {
    var d' := d[PathOf(job.bundle) := BundleFile(job, b')];
    BundleIsApart(job, d, b);
    forall f | f in job.fields
      ensures Fetch(In(job, d'), job.cfg, f) == Fetch(In(job, d), job.cfg, f)
              <==> forall f' :: f' in job.fields && SealedAt(job, d, job.cfg, f, EntryName(job.ns, f')) ==>
                     KeyInPlace(job, d, key) && Fetch(In(job, d), job.cfg, f') == Fetch(In(job, d), job.cfg, f)
    {
      OwnAfterBundle(job, d, key, b, b', f);
    }
    forall cfg, f | Beside(job, d, cfg, f) ensures Fetch(In(job, d'), cfg, f) == Fetch(In(job, d), cfg, f) {
      BesideAfterBundle(job, d, key, b, b', cfg, f);
    }
  }

  // ----- the config and the sidecars -----

  function Rewritten(job: Job, text: string): string {
    Rewrite(text, BundleRef(job.cfg, job.bundle), Targets(job))
  }

  lemma {:induction false} EntryForFields(job: Job, k: nat, f: string)
    requires k <= |job.fields| && f in job.fields[k..]
    ensures EntryFor(Targets(job)[k..], f) == Some(EntryName(job.ns, f))
    decreases |job.fields| - k
  {
    assert Targets(job)[k..][1..] == Targets(job)[k + 1..];
    if job.fields[k] != f {
      assert f in job.fields[k + 1..];
      EntryForFields(job, k + 1, f);
    }
  }

  /** The rewrite turns every readable field into a reference to its own entry. */
  lemma RewrittenSource(job: Job, text: string, f: string)
    requires WellNamed(job) && f in job.fields && SourceOf(text, f).Some?
    ensures SourceOf(Rewritten(job, text), f) == Some(SealedRef(Spec(BundleRef(job.cfg, job.bundle), EntryName(job.ns, f))))
  {
    assert job.fields[0..] == job.fields && Targets(job)[0..] == Targets(job);
    EntryForFields(job, 0, f);
    SourceAfterRewrite(text, BundleRef(job.cfg, job.bundle), Targets(job), f);
  }

  lemma RewrittenIsSealed(job: Job, text: string, disk: Disk, f: string)
    requires WellNamed(job) && f in job.fields && SourceOf(text, f).Some?
    requires PathOf(job.cfg) in disk && disk[PathOf(job.cfg)].text == Rewritten(job, text)
    ensures SealedAt(job, disk, job.cfg, f, EntryName(job.ns, f))
  {
    RewrittenSource(job, text, f);
    NoHash(job, f);
    SpecSplits(BundleRef(job.cfg, job.bundle), EntryName(job.ns, f));
    ReferenceResolves(job.cfg, job.bundle);
  }

  lemma NoHash(job: Job, f: string)
    requires WellNamed(job) && f in job.fields
    ensures '#' !in EntryName(job.ns, f)
  {
    assert forall i :: 0 <= i < |f| ==> IsBare(f[i]);
  }

  /** From the config's replacement on: new bundle, rewritten config, and everything else as it was or a sidecar gone. */
  ghost predicate Sealed(job: Job, d: Disk, b': Bundle, d': Disk) {
    && PathOf(job.cfg) in d && PathOf(job.cfg) in d' && d'[PathOf(job.cfg)].text == Rewritten(job, d[PathOf(job.cfg)].text)
    && PathOf(job.bundle) in d' && d'[PathOf(job.bundle)] == BundleFile(job, b')
    && (forall p :: p in d' && p != PathOf(job.cfg) && p != PathOf(job.bundle) ==> p in d && d'[p] == d[p])
    && (forall p :: p in d && !Removed(job, d, p) ==> p in d')
  }

  lemma KeyStaysInPlace(job: Job, d: Disk, b: Bundle, b': Bundle, d': Disk)
    requires Separate(job, d) && Holds(d, PathOf(job.bundle), b) && Sealed(job, d, b', d')
    ensures KeyAt(d', job.runtimeKey) == KeyAt(d, job.runtimeKey)
  {
    BundleIsApart(job, d, b);
  }

  /** From then on a field resolves as before if the runtime's key is the one sealed under, and not at all otherwise. */
  lemma OwnAfterSealed(job: Job, d: Disk, key: HostKey, b: Bundle, b': Bundle, d': Disk, f: string)
    requires WellNamed(job) && Separate(job, d) && Loads(job, d) && Sealing(job, d, key, b, b') && Sealed(job, d, b', d')
    requires f in job.fields
    ensures SealedAt(job, d', job.cfg, f, EntryName(job.ns, f))
    ensures if KeyInPlace(job, d, key) then Fetch(In(job, d'), job.cfg, f) == Fetch(In(job, d), job.cfg, f)
            else Fetch(In(job, d'), job.cfg, f).Err?
  {
    RewrittenIsSealed(job, d[PathOf(job.cfg)].text, d', f);
    SealedFetch(job, d', job.cfg, f, EntryName(job.ns, f));
    KeyStaysInPlace(job, d, b, b', d');
    EntryAfterBundle(job, d, key, b, b', d', EntryName(job.ns, f));
    SecretIsWritten(job, d, f);
  }

  lemma ReferredIsNotTheConfig(job: Job, d: Disk, cfg: Place, f: string)
    requires Separate(job, d) && Beside(job, d, cfg, f)
    ensures Referred(cfg.dir, Stored(d, cfg, f).value) != Some(PathOf(job.cfg))
  {
  }

  lemma FileStays(job: Job, d: Disk, b': Bundle, d': Disk, path: string)
    requires Sealed(job, d, b', d') && path in d && path in d' && path != PathOf(job.cfg)
    ensures var bundled := d[PathOf(job.bundle) := BundleFile(job, b')]; path in bundled && bundled[path] == d'[path]
  {
  }

  /** What another config reads is the same as long as it is there. */
  lemma ReferredStays(job: Job, d: Disk, key: HostKey, b: Bundle, b': Bundle, d': Disk, cfg: Place, f: string)
    requires Separate(job, d) && Loads(job, d) && Sealing(job, d, key, b, b') && Sealed(job, d, b', d') && Beside(job, d, cfg, f)
    requires forall r :: Referred(cfg.dir, Stored(d, cfg, f).value) == Some(r) ==> r in d'
    ensures Agree(d[PathOf(job.bundle) := BundleFile(job, b')], d', TouchedBy(cfg.dir, Stored(d, cfg, f).value, job.runtimeKey))
  {
    var source := Stored(d, cfg, f).value;
    TouchedIsThere(In(job, d), cfg.dir, source);
    ReferredIsNotTheConfig(job, d, cfg, f);
    forall p | p in TouchedBy(cfg.dir, source, job.runtimeKey) ensures p in d' && p != PathOf(job.cfg) {
      assert Referred(cfg.dir, source) == Some(p) || p == job.runtimeKey;
    }
    forall p | p in TouchedBy(cfg.dir, source, job.runtimeKey)
      ensures var bundled := d[PathOf(job.bundle) := BundleFile(job, b')]; p in bundled && bundled[p] == d'[p]
    {
      FileStays(job, d, b', d', p);
    }
  }

  /** From the config's replacement on another config resolves a field as before just as long as its files are there. */
  lemma BesideAfterSealed(job: Job, d: Disk, key: HostKey, b: Bundle, b': Bundle, d': Disk, cfg: Place, f: string)
    requires Separate(job, d) && Loads(job, d) && Sealing(job, d, key, b, b') && Sealed(job, d, b', d') && Beside(job, d, cfg, f)
    ensures Fetch(In(job, d'), cfg, f) == Fetch(In(job, d), cfg, f)
       <==> PathOf(cfg) in d' && forall r :: Referred(cfg.dir, Stored(d, cfg, f).value) == Some(r) ==> r in d'
  {
    var source := Stored(d, cfg, f).value;
    BesideAfterBundle(job, d, key, b, b', cfg, f);
    if PathOf(cfg) in d' && forall r :: Referred(cfg.dir, source) == Some(r) ==> r in d' {
      ReferredStays(job, d, key, b, b', d', cfg, f);
      ResolveDepends(In(job, d[PathOf(job.bundle) := BundleFile(job, b')]), d', cfg.dir, source);
    } else if PathOf(cfg) in d' {
      MissingFails(In(job, d'), cfg.dir, source);
    }
  }

  lemma MissingFails(w: World, base: string, source: Source)
    requires Referred(base, source).Some? && Referred(base, source).value !in w.disk
    ensures ResolveSource(w, base, source).Err?
  {
  }

  /** From the config's replacement on nothing is lost if and only if the runtime's key is the one sealed under. */
  lemma SealedIsIntact(job: Job, d: Disk, key: HostKey, b: Bundle, b': Bundle, d': Disk)
    requires WellNamed(job) && Separate(job, d) && Loads(job, d) && Sealing(job, d, key, b, b') && Sealed(job, d, b', d')
    ensures OwnIntact(job, d, d') <==> job.fields == [] || KeyInPlace(job, d, key)
    ensures OthersIntact(job, d, d')
  {
    forall f | f in job.fields
      ensures Fetch(In(job, d'), job.cfg, f) == Fetch(In(job, d), job.cfg, f) <==> KeyInPlace(job, d, key)
    {
      OwnAfterSealed(job, d, key, b, b', d', f);
    }
    if job.fields != [] {
      assert job.fields[0] in job.fields;
    }
    forall cfg, f | Beside(job, d, cfg, f) && Spared(job, d, cfg, f)
      ensures Fetch(In(job, d'), cfg, f) == Fetch(In(job, d), cfg, f)
    {
      TouchedIsThere(In(job, d), cfg.dir, Stored(d, cfg, f).value);
      BesideAfterSealed(job, d, key, b, b', d', cfg, f);
    }
  }

  /** Every sidecar that can be deleted is gone. */
  ghost predicate Cleared(job: Job, d: Disk, d': Disk) {
    forall p :: Removed(job, d, p) ==> p !in d'
  }

  /** After the whole command another config resolves a field as before if and only if no removal touches it. */
  lemma BesideAfterAll(job: Job, d: Disk, key: HostKey, b: Bundle, b': Bundle, d': Disk, cfg: Place, f: string)
    requires Separate(job, d) && Loads(job, d) && Sealing(job, d, key, b, b') && Sealed(job, d, b', d') && Cleared(job, d, d')
    requires Beside(job, d, cfg, f)
    ensures Fetch(In(job, d'), cfg, f) == Fetch(In(job, d), cfg, f) <==> Spared(job, d, cfg, f)
  {
    TouchedIsThere(In(job, d), cfg.dir, Stored(d, cfg, f).value);
    BesideAfterSealed(job, d, key, b, b', d', cfg, f);
  }
}
