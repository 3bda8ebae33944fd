/** A config sealed under a key that the runtime does not hold stops loading once it is replaced. */
module SealElsewhere {
  import opened Basics
  import opened Results
  import opened Text
  import opened TomlText
  import opened Rewriter
  import opened ConfigText
  import opened SealCommand
  import opened SealRun
  import opened SealCrossing

  /** The text after the key of an inline secret. */
  function Quoted(value: string): string {
    [' '] + (['='] + ([' '] + BasicString(value)))
  }

  /** A config of one inline secret. */
  function InlineConfig(f: string, value: string): string {
    Unlines([f + Quoted(value)])
  }

  lemma QuotedReads(value: string)
    ensures Quoted(value)[0] == ' ' && TrimStart(Quoted(value)) == Quoted(value)[1..] && ['='] <= Quoted(value)[1..]
    ensures Quoted(value)[1..][1..] == [' '] + BasicString(value)
    ensures ParseValue([' '] + BasicString(value)) == Some(Inline(value))
  {
    assert Quoted(value)[1..] == ['='] + ([' '] + BasicString(value));
    TrimsOneBlank(BasicString(value));
    BasicStringReadsBack(value, "");
    assert BasicString(value) + "" == BasicString(value);
  }

  lemma QuotedStaysOnItsLine(f: string, value: string)
    requires BareKey(f)
    ensures '\n' !in f + Quoted(value) && StripCr(f + Quoted(value)) == f + Quoted(value)
  {
    EscapedHasNoControls(value);
    assert '\n' !in BasicString(value);
    assert forall i :: 0 <= i < |f| ==> IsBare(f[i]);
    var line := f + Quoted(value);
    assert line[|line| - 1] == BasicString(value)[|BasicString(value)| - 1] == '"';
  }

  lemma InlineConfigReads(f: string, value: string)
    requires BareKey(f)
    ensures SourceOf(InlineConfig(f, value), f) == Some(Inline(value))
  {
    var line := f + Quoted(value);
    QuotedReads(value);
    QuotedStaysOnItsLine(f, value);
    UnlinesReadsBack([line]);
    assert StripEach([line]) == [line];
    assert "" + line == line;
    MatchesItsKey("", f, Quoted(value), f);
    TrimsItsIndent("", line);
    assert line[|f|..] == Quoted(value);
    assert Holders([line], f) == [line];
  }

  /** An inline config and no key anywhere. */
  function InlineDisk(job: Job, value: string): Disk
    requires |job.fields| == 1
  {
    map[PathOf(job.cfg) := File(InlineConfig(job.fields[0], value), None, None)]
  }

  lemma InlineLoads(job: Job, value: string)
    requires WellNamed(job) && |job.fields| == 1 && PathsDiffer(job)
    ensures var d := InlineDisk(job, value);
            Loads(job, d) && Separate(job, d) && NoCrossing(job, d) && Fetch(In(job, d), job.cfg, job.fields[0]) == Ok(value)
  {
    InlineConfigReads(job.fields[0], value);
    assert forall f :: f in job.fields ==> f == job.fields[0];
  }

  /**
   The command run with a key path other than the runtime's, on an inline config: it succeeds, and from the config's
   replacement on the config no longer loads.
   */
  lemma SealedElsewhereStopsLoading(job: Job, value: string, now: Disk)
    requires WellNamed(job) && |job.fields| == 1 && PathsDiffer(job) && job.hostKey != job.runtimeKey
    ensures var d := InlineDisk(job, value);
            && Separate(job, d) && Succeeds(job, d) && NoCrossing(job, d) && !RuntimeCanRead(job, d)
            && Fetch(In(job, d), job.cfg, job.fields[0]) == Ok(value)
            && (now in SealedDisks(job, KeyDisk(job, d), NewBundle(job, d)) ==> Fetch(In(job, now), job.cfg, job.fields[0]).Err?)
  {
    var d := InlineDisk(job, value);
    InlineLoads(job, value);
    KeyStage(job, d);
    if now in SealedDisks(job, KeyDisk(job, d), NewBundle(job, d)) {
      SucceedsIsSealing(job, d);
      var b :| Sealing(job, KeyDisk(job, d), UsedKey(job, d).value, b, NewBundle(job, d));
      OwnAfterSealed(job, KeyDisk(job, d), UsedKey(job, d).value, b, NewBundle(job, d), now, job.fields[0]);
    }
  }
}
