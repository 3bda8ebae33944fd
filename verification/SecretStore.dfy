/**
 The sealed secret store with symbolic encryption: an entry opens only under the host key,
 field and associated data it was sealed with. A text stands for its UTF-8 bytes.
 */
module SecretStore {
  import opened Basics
  import opened Results
  import opened Text

  const BUNDLE_VERSION: nat := 1

  type HostKey = k: seq<bv8> | |k| == 32 witness seq(32, _ => 0)

  /** `text` is missing when the sealed bytes are not UTF-8. */
  datatype Entry = Garbled | Sealed(key: HostKey, field: string, aad: string, text: Option<string>)

  datatype SealError =
    | BundleMalformed
    | EntryUnspecified
    | EntryMissing(field: string)
    | Decrypt

  function BigEndian4(n: u32): string {
    var (high, low) := (n / 0x1_0000, n % 0x1_0000);
    [(high / 0x100) as char, (high % 0x100) as char, (low / 0x100) as char, (low % 0x100) as char]
  }

  function EntryAad(version: u32, id: string, field: string): string {
    BigEndian4(version) + ['|'] + (id + ['|'] + field)
  }

  function SealSecret(key: HostKey, field: string, aad: string, text: string): Entry {
    Sealed(key, field, aad, Some(text))
  }

  function OpenEntry(key: HostKey, field: string, aad: string, e: Entry): Result<string, SealError> {
    if e.Garbled? then Err(BundleMalformed)
    else if e.key != key || e.field != field || e.aad != aad || e.text == None then Err(Decrypt)
    else Ok(e.text.value)
  }

  // ----- associated data -----

  lemma Digits(n: u32)
    ensures var a := BigEndian4(n);
            n == (a[0] as int * 0x100 + a[1] as int) * 0x1_0000 + (a[2] as int * 0x100 + a[3] as int)
  {
  }

  lemma BigEndianReadsBack(m: u32, n: u32)
    requires BigEndian4(m) == BigEndian4(n)
    ensures m == n
  {
    Digits(m);
    Digits(n);
    var (a, b) := (BigEndian4(m), BigEndian4(n));
    assert a[0] == b[0] && a[1] == b[1] && a[2] == b[2] && a[3] == b[3];
  }

  lemma AadSplits(v: u32, id: string, field: string, v': u32, id': string, field': string)
    requires EntryAad(v, id, field) == EntryAad(v', id', field')
    ensures v == v' && id + ['|'] + field == id' + ['|'] + field'
  {
    var (a, b) := (EntryAad(v, id, field), EntryAad(v', id', field'));
    assert BigEndian4(v) == a[..4] && BigEndian4(v') == b[..4];
    BigEndianReadsBack(v, v');
    assert a[5..] == id + ['|'] + field && b[5..] == id' + ['|'] + field';
  }

  /** Ids without a bar, as base64 ids are, make the associated data injective. */
  lemma AadIsInjective(v: u32, id: string, field: string, v': u32, id': string, field': string)
    requires '|' !in id && '|' !in id' && EntryAad(v, id, field) == EntryAad(v', id', field')
    ensures v == v' && id == id' && field == field'
  {
    AadSplits(v, id, field, v', id', field');
    CutsAlike(id, field, id', field', '|');
  }

  /** With bars in ids it is not. */
  lemma AadCanCollide(v: u32)
    ensures EntryAad(v, "a|b", "c") == EntryAad(v, "a", "b|c")
  {
  }

  /** For one field, the associated data names the id whatever it holds. */
  lemma AadNamesTheId(v: u32, id: string, v': u32, id': string, field: string)
    requires EntryAad(v, id, field) == EntryAad(v', id', field)
    ensures v == v' && id == id'
  {
    AadSplits(v, id, field, v', id', field);
    var whole := id + ['|'] + field;
    assert |id| == |id'|;
    assert id == whole[..|id|] && id' == (id' + ['|'] + field)[..|id'|];
  }

  /** A sealed entry opens exactly where it was sealed, with no condition on ids or fields. */
  lemma OpensOnlyWhereSealed(key: HostKey, v: u32, id: string, field: string, text: string,
                             key': HostKey, v': u32, id': string, field': string)
    ensures var e := SealSecret(key, field, EntryAad(v, id, field), text);
            OpenEntry(key', field', EntryAad(v', id', field'), e)
            == if (key, v, id, field) == (key', v', id', field') then Ok(text) else Err(Decrypt)
  {
    if field == field' && EntryAad(v, id, field) == EntryAad(v', id', field') {
      AadNamesTheId(v, id, v', id', field);
    }
  }

  // ----- bundles -----

  datatype Bundle = Bundle(version: u32, id: string, entries: map<string, Entry>)

  /** Looking a field up and decrypting it. */
  function OpenField(b: Bundle, key: HostKey, field: string): Result<string, SealError> {
    if field !in b.entries then Err(EntryMissing(field))
    else OpenEntry(key, field, EntryAad(b.version, b.id, field), b.entries[field])
  }

  datatype Secret = Secret(field: string, text: string)

  /** The assignments of a list, the last one to a field winning, on top of `m`. */
  function Written(m: map<string, string>, secrets: seq<Secret>): map<string, string> {
    if secrets == [] then m
    else
      var n := |secrets| - 1;
      Written(m, secrets[..n])[secrets[n].field := secrets[n].text]
  }

  predicate Names(secrets: seq<Secret>, field: string) {
    exists i :: 0 <= i < |secrets| && secrets[i].field == field
  }

  /** The texts an unnamed entry must give up before the id can change. */
  predicate Retainable(b: Bundle, key: HostKey, secrets: seq<Secret>) {
    forall f :: f in b.entries && !Names(secrets, f) ==> OpenField(b, key, f).Ok?
  }

  function Retained(b: Bundle, key: HostKey, secrets: seq<Secret>): map<string, string>
    requires Retainable(b, key, secrets)
  {
    map f | f in b.entries && !Names(secrets, f) :: OpenField(b, key, f).value
  }

  /** Every text sealed under one id. */
  function SealAllUnder(key: HostKey, version: u32, id: string, texts: map<string, string>): map<string, Entry> {
    map f | f in texts :: SealSecret(key, f, EntryAad(version, id, f), texts[f])
  }

  /** The re-seal as a whole. */
  function Reseal(b: Bundle, key: HostKey, secrets: seq<Secret>, id: string): Option<Bundle> {
    if !Retainable(b, key, secrets) then None
    else Some(Bundle(b.version, id, SealAllUnder(key, b.version, id, Written(Retained(b, key, secrets), secrets))))
  }

  /** The order of a sorted map's keys. */
  predicate Sorts(a: string, b: string) {
    a == "" || (b != "" && (a[0] < b[0] || (a[0] == b[0] && Sorts(a[1..], b[1..]))))
  }

  lemma {:induction false} SortsIsTotal(a: string, b: string)
    ensures Sorts(a, b) || Sorts(b, a)
  {
    if a != "" && b != "" {
      SortsIsTotal(a[1..], b[1..]);
    }
  }

  lemma {:induction false} SortsOnward(a: string, b: string, c: string)
    requires Sorts(a, b) && Sorts(b, c)
    ensures Sorts(a, c)
  {
    if a != "" && a[0] == b[0] == c[0] {
      SortsOnward(a[1..], b[1..], c[1..]);
    }
  }

  ghost predicate IsFirst(keys: set<string>, f: string) {
    f in keys && forall g :: g in keys ==> Sorts(f, g)
  }

  lemma {:induction false} HasFirst(keys: set<string>) returns (f: string)
    requires keys != {}
    ensures IsFirst(keys, f)
  {
    var k :| k in keys;
    var rest := keys - {k};
    SortsIsTotal(k, k);
    if rest == {} {
      f := k;
      assert forall g :: g in keys ==> g == k || g in rest;
    } else {
      var g := HasFirst(rest);
      SortsIsTotal(k, g);
      f := if Sorts(k, g) then k else g;
      forall h | h in keys ensures Sorts(f, h) {
        if h != k && Sorts(k, g) {
          SortsOnward(k, g, h);
        }
      }
    }
  }

  /** A retained entry that does not open. */
  predicate Fails(b: Bundle, key: HostKey, secrets: seq<Secret>, f: string) {
    f in b.entries && !Names(secrets, f) && OpenField(b, key, f).Err?
  }

  /** The first of them in the order of the fields, with its error. */
  ghost predicate FailsFirst(b: Bundle, key: HostKey, secrets: seq<Secret>, error: SealError) {
    exists f :: Fails(b, key, secrets, f) && OpenField(b, key, f) == Err(error)
                && forall g :: Fails(b, key, secrets, g) ==> Sorts(f, g)
  }

  class SealedBundle {
    var version: u32
    var id: string
    var entries: map<string, Entry>

    function Contents(): Bundle
      reads this
    {
      Bundle(version, id, entries)
    }

    constructor (id: string)
      ensures Contents() == Bundle(BUNDLE_VERSION, id, map[])
    {
      this.version, this.id, this.entries := BUNDLE_VERSION, id, map[];
    }

    constructor Of(b: Bundle)
      ensures Contents() == b
    {
      version, id, entries := b.version, b.id, b.entries;
    }

    /** Opens every entry the re-seal keeps, in the order of the fields, stopping at the first that does not open. */
    method Retain(key: HostKey, secrets: seq<Secret>) returns (r: Result<seq<Secret>, SealError>)
      ensures r.Ok? ==> Retainable(Contents(), key, secrets)
      ensures r.Ok? ==> Written(map[], r.value) == Retained(Contents(), key, secrets)
      ensures r.Err? ==> FailsFirst(Contents(), key, secrets, r.error)
    {
      ghost var b := Contents();
      var retained: seq<Secret> := [];
      var todo := entries.Keys;
      while todo != {}
        invariant todo <= entries.Keys
        invariant forall f :: Fails(b, key, secrets, f) ==> f in todo
        invariant Written(map[], retained) == Collected(b, key, secrets, todo)
        decreases |todo|
      {
        ghost var first := HasFirst(todo);
        var f :| f in todo && forall g :: g in todo ==> Sorts(f, g);
        CollectOne(b, key, secrets, todo, f);
        todo := todo - {f};
        if Names(secrets, f) {
          continue;
        }
        var text := OpenEntry(key, f, EntryAad(version, id, f), entries[f]);
        if text.Err? {
          return Err(text.error);
        }
        WrittenOne(map[], retained, Secret(f, text.value));
        retained := retained + [Secret(f, text.value)];
      }
      forall f | f in b.entries && !Names(secrets, f) ensures OpenField(b, key, f).Ok? {
        assert !Fails(b, key, secrets, f);
      }
      assert Collected(b, key, secrets, {}) == Retained(b, key, secrets);
      return Ok(retained);
    }

    /** Replaces the entries by a list of assignments sealed under a new id. */
    method Rebuild(key: HostKey, all: seq<Secret>, id': string)
      modifies this
      ensures version == old(version) && id == id' && entries == SealAllUnder(key, version, id', Written(map[], all))
    {
      id := id';
      entries := map[];
      for i := 0 to |all|
        invariant version == old(version) && id == id'
        invariant entries == SealAllUnder(key, version, id, Written(map[], all[..i]))
      {
        var s := all[i];
        entries := entries[s.field := SealSecret(key, s.field, EntryAad(version, id, s.field), s.text)];
        WrittenOne(map[], all[..i], s);
        assert all[..i + 1] == all[..i] + [s];
      }
      assert all[..|all|] == all;
    }

    /**
     Re-seals under the drawn id `id'`. On failure the bundle is untouched and the error is that of the first retained
     entry that does not open.
     */
    method SealInto(key: HostKey, secrets: seq<Secret>, id': string) returns (error: Option<SealError>)
      modifies this
      ensures error.None? ==> Some(Contents()) == Reseal(old(Contents()), key, secrets, id')
      ensures error.Some? ==> Contents() == old(Contents()) && Reseal(Contents(), key, secrets, id') == None
      ensures error.Some? ==> FailsFirst(Contents(), key, secrets, error.value)
    {
      var retained := Retain(key, secrets);
      if retained.Err? {
        return Some(retained.error);
      }
      WrittenInTurn(map[], retained.value, secrets);
      Rebuild(key, retained.value + secrets, id');
      return None;
    }
  }

  /** The retained texts found so far. */
  ghost function Collected(b: Bundle, key: HostKey, secrets: seq<Secret>, todo: set<string>): map<string, string> {
    map f | f in b.entries && f !in todo && !Names(secrets, f) && OpenField(b, key, f).Ok? :: OpenField(b, key, f).value
  }

  lemma CollectOne(b: Bundle, key: HostKey, secrets: seq<Secret>, todo: set<string>, f: string)
    requires f in todo && f in b.entries
    ensures Collected(b, key, secrets, todo - {f})
         == if Names(secrets, f) || OpenField(b, key, f).Err? then Collected(b, key, secrets, todo)
            else Collected(b, key, secrets, todo)[f := OpenField(b, key, f).value]
  {
  }

  lemma WrittenOne(m: map<string, string>, secrets: seq<Secret>, s: Secret)
    ensures Written(m, secrets + [s]) == Written(m, secrets)[s.field := s.text]
  {
    assert (secrets + [s])[..|secrets|] == secrets;
  }

  lemma {:induction false} WrittenInTurn(m: map<string, string>, a: seq<Secret>, b: seq<Secret>)
    ensures Written(m, a + b) == Written(Written(m, a), b)
  {
    if b == [] {
      assert a + b == a;
    } else {
      var n := |b| - 1;
      assert a + b == a + b[..n] + [b[n]];
      WrittenOne(m, a + b[..n], b[n]);
      WrittenInTurn(m, a, b[..n]);
    }
  }

  // ----- re-seals against a plain map -----

  /** The bundle stands for a plain map: every key opens to its text and nothing else is there. */
  ghost predicate StandsFor(b: Bundle, key: HostKey, m: map<string, string>) {
    b.entries == SealAllUnder(key, b.version, b.id, m)
  }

  lemma StandingOpens(b: Bundle, key: HostKey, m: map<string, string>, field: string)
    requires StandsFor(b, key, m)
    ensures OpenField(b, key, field) == if field in m then Ok(m[field]) else Err(EntryMissing(field))
  {
  }

  /** A bundle that stands for a map can always be re-sealed, and then stands for the updated map. */
  lemma ResealStands(b: Bundle, key: HostKey, m: map<string, string>, secrets: seq<Secret>, id: string)
    requires StandsFor(b, key, m)
    ensures Reseal(b, key, secrets, id).Some? && StandsFor(Reseal(b, key, secrets, id).value, key, Written(m, secrets))
    ensures Reseal(b, key, secrets, id).value.id == id && Reseal(b, key, secrets, id).value.version == b.version
  {
    forall f | f in b.entries ensures OpenField(b, key, f) == Ok(m[f]) {
      StandingOpens(b, key, m, f);
    }
    WrittenForgets(m, Retained(b, key, secrets), secrets);
  }

  lemma {:induction false} WrittenAt(m: map<string, string>, secrets: seq<Secret>, f: string)
    ensures f in Written(m, secrets) <==> f in m || Names(secrets, f)
    ensures !Names(secrets, f) && f in m ==> Written(m, secrets)[f] == m[f]
    ensures Names(secrets, f) ==> f in Written(map[], secrets) && Written(m, secrets)[f] == Written(map[], secrets)[f]
  {
    if secrets != [] {
      var n := |secrets| - 1;
      WrittenAt(m, secrets[..n], f);
      WrittenAt(map[], secrets[..n], f);
      assert Names(secrets, f) <==> Names(secrets[..n], f) || secrets[n].field == f;
    }
  }

  /** Dropping the named fields first makes no difference. */
  lemma WrittenForgets(m: map<string, string>, kept: map<string, string>, secrets: seq<Secret>)
    requires forall f :: f in kept <==> f in m && !Names(secrets, f)
    requires forall f :: f in kept ==> kept[f] == m[f]
    ensures Written(kept, secrets) == Written(m, secrets)
  {
    var (a, b) := (Written(kept, secrets), Written(m, secrets));
    forall f ensures f in a <==> f in b
             ensures f in a ==> a[f] == b[f] {
      WrittenAt(m, secrets, f);
      WrittenAt(kept, secrets, f);
    }
  }

  /** The bundle after sealing lists one after another, each under the next id, starting empty. */
  function AfterAll(key: HostKey, lists: seq<seq<Secret>>, ids: seq<string>): Option<Bundle>
    requires |ids| == |lists| + 1
  {
    if lists == [] then Some(Bundle(BUNDLE_VERSION, ids[0], map[]))
    else
      var n := |lists| - 1;
      var before := AfterAll(key, lists[..n], ids[..n + 1]);
      if before.None? then None else Reseal(before.value, key, lists[n], ids[n + 1])
  }

  function Concat(lists: seq<seq<Secret>>): seq<Secret> {
    if lists == [] then [] else Concat(lists[..|lists| - 1]) + lists[|lists| - 1]
  }

  /** Any number of re-seals under one key never fails and opens like one plain map, the last write winning. */
  lemma {:induction false} ResealsAreAMap(key: HostKey, lists: seq<seq<Secret>>, ids: seq<string>)
    requires |ids| == |lists| + 1
    ensures AfterAll(key, lists, ids).Some?
    ensures var b := AfterAll(key, lists, ids).value;
            StandsFor(b, key, Written(map[], Concat(lists))) && b.id == ids[|lists|] && b.version == BUNDLE_VERSION
  {
    if lists != [] {
      var n := |lists| - 1;
      ResealsAreAMap(key, lists[..n], ids[..n + 1]);
      var before := AfterAll(key, lists[..n], ids[..n + 1]).value;
      ResealStands(before, key, Written(map[], Concat(lists[..n])), lists[n], ids[n + 1]);
      WrittenInTurn(map[], Concat(lists[..n]), lists[n]);
    }
  }

  /** What an operator reads after any sequence of re-seals. */
  lemma ResealsOpenLikeAMap(key: HostKey, lists: seq<seq<Secret>>, ids: seq<string>, field: string)
    requires |ids| == |lists| + 1
    ensures var m := Written(map[], Concat(lists));
            AfterAll(key, lists, ids).Some?
            && OpenField(AfterAll(key, lists, ids).value, key, field)
               == if field in m then Ok(m[field]) else Err(EntryMissing(field))
  {
    ResealsAreAMap(key, lists, ids);
    StandingOpens(AfterAll(key, lists, ids).value, key, Written(map[], Concat(lists)), field);
  }

  /** No entry captured before a later re-seal opens in the bundle as it is then, under any field name. */
  lemma CapturedEntryNeverOpens(key: HostKey, lists: seq<seq<Secret>>, ids: seq<string>, k: nat, f: string, g: string)
    requires |ids| == |lists| + 1 && k < |lists|
    requires ids[k] != ids[|lists|]
    requires AfterAll(key, lists[..k], ids[..k + 1]).Some? && f in AfterAll(key, lists[..k], ids[..k + 1]).value.entries
    ensures var captured := AfterAll(key, lists[..k], ids[..k + 1]).value.entries[f];
            AfterAll(key, lists, ids).Some?
            && var b := AfterAll(key, lists, ids).value;
               OpenEntry(key, g, EntryAad(b.version, b.id, g), captured) == Err(Decrypt)
  {
    ResealsAreAMap(key, lists, ids);
    ResealsAreAMap(key, lists[..k], ids[..k + 1]);
    var m := Written(map[], Concat(lists[..k]));
    OpensOnlyWhereSealed(key, BUNDLE_VERSION, ids[k], f, m[f], key, BUNDLE_VERSION, ids[|lists|], g);
  }

  /** A re-seal changes what opens under the named fields only. */
  lemma ResealOpens(b: Bundle, key: HostKey, secrets: seq<Secret>, id: string, field: string)
    requires Reseal(b, key, secrets, id).Some?
    ensures var b' := Reseal(b, key, secrets, id).value;
            if Names(secrets, field)
            then field in Written(map[], secrets) && OpenField(b', key, field) == Ok(Written(map[], secrets)[field])
            else OpenField(b', key, field) == OpenField(b, key, field)
  {
    var kept := Retained(b, key, secrets);
    WrittenAt(kept, secrets, field);
    StandingOpens(Reseal(b, key, secrets, id).value, key, Written(kept, secrets), field);
  }

  /** What a re-seal writes opens under no other key. */
  lemma ResealBindsTheKey(b: Bundle, key: HostKey, secrets: seq<Secret>, id: string, field: string, key': HostKey)
    requires Reseal(b, key, secrets, id).Some? && Names(secrets, field) && key' != key
    ensures OpenField(Reseal(b, key, secrets, id).value, key', field).Err?
  {
  }

  /** With no field named twice, each is written its own text. */
  lemma {:induction false} WrittenOnce(secrets: seq<Secret>, i: nat)
    requires i < |secrets| && forall j, k :: 0 <= j < k < |secrets| ==> secrets[j].field != secrets[k].field
    ensures secrets[i].field in Written(map[], secrets) && Written(map[], secrets)[secrets[i].field] == secrets[i].text
  {
    var n := |secrets| - 1;
    if i < n {
      WrittenOnce(secrets[..n], i);
    }
  }
}
