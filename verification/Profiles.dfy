/** Deduplication of imported profiles. */
module Profiles {
  import opened Options

  /** A profile: the fields that identify the entry, and the rest, which describes the
      server. */
  datatype Profile = Profile(id: string, delayMs: int, subId: string, subName: string, sortOrder: int, server: string)

  /** importedProfileDedupKey on an arbitrary encoding, which may fail: only the server
      counts. */
  function Key(encode: string -> Option<string>, p: Profile): Option<string> { encode(p.server) }

  function KeyOf(encode: string -> Option<string>): Profile -> Option<string> { p => Key(encode, p) }

  /** The last of the profiles with a key, or the given one. */
  function Latest(key: Profile -> Option<string>, p: Profile, ps: seq<Profile>, c: string): Profile
    decreases ps
  {
    if ps == [] then p else Latest(key, if key(ps[0]) == Some(c) then ps[0] else p, ps[1..], c)
  }

  function Without(key: Profile -> Option<string>, ps: seq<Profile>, c: string): (r: seq<Profile>)
    ensures |r| <= |ps|
    ensures forall p :: p in r ==> p in ps && key(p) != Some(c)
  {
    if ps == [] then []
    else if key(ps[0]) == Some(c) then Without(key, ps[1..], c)
    else [ps[0]] + Without(key, ps[1..], c)
  }

  /** One entry for each key, where the key first occurs, with the content it has last;
      profiles without a key all stay. */
  function Deduped(key: Profile -> Option<string>, ps: seq<Profile>): seq<Profile>
    decreases |ps|
  {
    if ps == [] then []
    else if key(ps[0]).None? then [ps[0]] + Deduped(key, ps[1..])
    else
      var c := key(ps[0]).value;
      [Latest(key, ps[0], ps[1..], c)] + Deduped(key, Without(key, ps[1..], c))
  }

  // ---- the algorithm ------------------------------------------------------------------

  function IndexWith(key: Profile -> Option<string>, ps: seq<Profile>, c: string): (n: nat)
    ensures n <= |ps|
    ensures n < |ps| ==> key(ps[n]) == Some(c)
    ensures forall i :: 0 <= i < n ==> key(ps[i]) != Some(c)
  {
    if ps == [] || key(ps[0]) == Some(c) then 0 else 1 + IndexWith(key, ps[1..], c)
  }

  function Absorb(key: Profile -> Option<string>, result: seq<Profile>, p: Profile): seq<Profile> {
    if key(p).None? then result + [p]
    else
      var i := IndexWith(key, result, key(p).value);
      if i < |result| then result[i := p] else result + [p]
  }

  function AbsorbAll(key: Profile -> Option<string>, result: seq<Profile>, ps: seq<Profile>): seq<Profile>
    decreases ps
  {
    if ps == [] then result else AbsorbAll(key, Absorb(key, result, ps[0]), ps[1..])
  }

  lemma AbsorbBehind(key: Profile -> Option<string>, x: Profile, r: seq<Profile>, p: Profile)
    requires key(p).None? || key(p) != key(x)
    ensures Absorb(key, [x] + r, p) == [x] + Absorb(key, r, p)
  {
    assert ([x] + r)[1..] == r;
  }

  lemma {:induction false} UnkeyedStays(key: Profile -> Option<string>, x: Profile, r: seq<Profile>, ps: seq<Profile>)
    requires key(x).None?
    ensures AbsorbAll(key, [x] + r, ps) == [x] + AbsorbAll(key, r, ps)
    decreases ps
  {
    if ps != [] {
      AbsorbBehind(key, x, r, ps[0]);
      UnkeyedStays(key, x, Absorb(key, r, ps[0]), ps[1..]);
    }
  }

  lemma {:induction false} KeyedIsUpdated(key: Profile -> Option<string>, x: Profile, r: seq<Profile>, ps: seq<Profile>)
    requires key(x).Some?
    ensures AbsorbAll(key, [x] + r, ps)
            == [Latest(key, x, ps, key(x).value)] + AbsorbAll(key, r, Without(key, ps, key(x).value))
    decreases ps
  {
    if ps != [] {
      var (p, tail) := (ps[0], ps[1..]);
      if key(p) == key(x) {
        assert ([x] + r)[0 := p] == [p] + r;
        KeyedIsUpdated(key, p, r, tail);
      } else {
        AbsorbBehind(key, x, r, p);
        KeyedIsUpdated(key, x, Absorb(key, r, p), tail);
        assert Without(key, ps, key(x).value)[1..] == Without(key, tail, key(x).value);
      }
    }
  }

  lemma {:induction false} AbsorbingDedupes(key: Profile -> Option<string>, ps: seq<Profile>)
    ensures AbsorbAll(key, [], ps) == Deduped(key, ps)
    decreases |ps|
  {
    if ps != [] {
      var (p, tail) := (ps[0], ps[1..]);
      assert Absorb(key, [], p) == [p] + [];
      if key(p).None? {
        UnkeyedStays(key, p, [], tail);
        AbsorbingDedupes(key, tail);
      } else {
        KeyedIsUpdated(key, p, [], tail);
        AbsorbingDedupes(key, Without(key, tail, key(p).value));
      }
    }
  }

  /** The index says where each key of the result is. */
  ghost predicate Indexes(key: Profile -> Option<string>, index: map<string, nat>, result: seq<Profile>) {
    forall c :: (c in index <==> IndexWith(key, result, c) < |result|)
      && (c in index ==> index[c] == IndexWith(key, result, c))
  }

  lemma IndexStays(key: Profile -> Option<string>, index: map<string, nat>, result: seq<Profile>, p: Profile)
    requires Indexes(key, index, result) && (key(p).None? || key(p).value in index)
    ensures Indexes(key, index, Absorb(key, result, p))
  {
    forall c
      ensures var (a, n) := (Absorb(key, result, p), IndexWith(key, result, c));
              IndexWith(key, a, c) == if n < |result| then n else |a|
    {
      IndexAfterAbsorb(key, result, p, c);
    }
  }

  lemma IndexGrows(key: Profile -> Option<string>, index: map<string, nat>, result: seq<Profile>, p: Profile)
    requires Indexes(key, index, result) && key(p).Some? && key(p).value !in index
    ensures Indexes(key, index[key(p).value := |result|], result + [p]) && Absorb(key, result, p) == result + [p]
  {
    forall c
      ensures var n := IndexWith(key, result, c);
              IndexWith(key, result + [p], c)
              == if key(p) == Some(c) then |result| else if n < |result| then n else |result| + 1
    {
      IndexAfterAbsorb(key, result, p, c);
    }
  }

  lemma AbsorbStep(key: Profile -> Option<string>, result: seq<Profile>, ps: seq<Profile>, i: nat)
    requires i < |ps|
    ensures AbsorbAll(key, result, ps[i..]) == AbsorbAll(key, Absorb(key, result, ps[i]), ps[i + 1..])
  {
    assert ps[i..][0] == ps[i] && ps[i..][1..] == ps[i + 1..];
  }

  /** dedupeImportedProfiles */
  method DedupeImportedProfiles(encode: string -> Option<string>, profiles: seq<Profile>) returns (result: seq<Profile>)
    ensures result == Deduped(KeyOf(encode), profiles)
  {
    AbsorbingDedupes(KeyOf(encode), profiles);
    if |profiles| < 2 { return profiles; }
    var key := KeyOf(encode);
    result := [];
    var indexByKey: map<string, nat> := map[];
    assert profiles[0..] == profiles;
    for i := 0 to |profiles|
      invariant AbsorbAll(key, result, profiles[i..]) == AbsorbAll(key, [], profiles)
      invariant Indexes(key, indexByKey, result)
    {
      var p := profiles[i];
      AbsorbStep(key, result, profiles, i);
      var k := key(p);
      if k.Some? && k.value !in indexByKey {
        IndexGrows(key, indexByKey, result, p);
        indexByKey := indexByKey[k.value := |result|];
        result := result + [p];
      } else {
        IndexStays(key, indexByKey, result, p);
        if k.None? {
          result := result + [p];
        } else {
          result := result[indexByKey[k.value] := p];
        }
      }
    }
  }

  lemma IndexIs(key: Profile -> Option<string>, ps: seq<Profile>, c: string, n: nat)
    requires n <= |ps| && (n < |ps| ==> key(ps[n]) == Some(c)) && forall i :: 0 <= i < n ==> key(ps[i]) != Some(c)
    ensures IndexWith(key, ps, c) == n
  {
  }

  lemma IndexAfterAbsorb(key: Profile -> Option<string>, r: seq<Profile>, p: Profile, c: string)
    ensures var (a, n) := (Absorb(key, r, p), IndexWith(key, r, c));
            IndexWith(key, a, c) == if key(p) == Some(c) && n == |r| then |r| else if n < |r| then n else |a|
  {
    var (a, n) := (Absorb(key, r, p), IndexWith(key, r, c));
    IndexIs(key, a, c, if key(p) == Some(c) && n == |r| then |r| else if n < |r| then n else |a|);
  }

  // ---- its laws -----------------------------------------------------------------------------

  ghost predicate DistinctKeys(key: Profile -> Option<string>, ps: seq<Profile>) {
    forall i, j :: 0 <= i < j < |ps| && key(ps[i]).Some? ==> key(ps[i]) != key(ps[j])
  }

  lemma {:induction false} LatestHasKey(key: Profile -> Option<string>, p: Profile, ps: seq<Profile>, c: string)
    requires key(p) == Some(c)
    ensures key(Latest(key, p, ps, c)) == Some(c)
    decreases ps
  {
    if ps != [] { LatestHasKey(key, if key(ps[0]) == Some(c) then ps[0] else p, ps[1..], c); }
  }

  lemma {:induction false} WithoutKeeps(key: Profile -> Option<string>, ps: seq<Profile>, c: string, k: Option<string>)
    requires k != Some(c)
    ensures (exists p :: p in Without(key, ps, c) && key(p) == k) <==> (exists p :: p in ps && key(p) == k)
  {
    if ps != [] {
      WithoutKeeps(key, ps[1..], c, k);
      assert ps == [ps[0]] + ps[1..];
    }
  }

  ghost predicate HasKey(key: Profile -> Option<string>, ps: seq<Profile>, k: Option<string>) {
    exists p :: p in ps && key(p) == k
  }

  /** Every key of the list is there, exactly once. */
  lemma {:induction false} OneEntryPerKey(key: Profile -> Option<string>, ps: seq<Profile>)
    ensures DistinctKeys(key, Deduped(key, ps))
    ensures forall k :: HasKey(key, Deduped(key, ps), k) <==> HasKey(key, ps, k)
    decreases |ps|
  {
    if ps != [] {
      var (p, tail, d) := (ps[0], ps[1..], Deduped(key, ps));
      assert ps == [p] + tail;
      if key(p).None? {
        OneEntryPerKey(key, tail);
        forall k ensures HasKey(key, d, k) <==> HasKey(key, ps, k) {
          ConsHasKey(key, p, tail, k);
          ConsHasKey(key, p, Deduped(key, tail), k);
        }
      } else {
        var c := key(p).value;
        var rest := Without(key, tail, c);
        OneEntryPerKey(key, rest);
        LatestHasKey(key, p, tail, c);
        forall k ensures HasKey(key, d, k) <==> HasKey(key, ps, k) {
          ConsHasKey(key, p, tail, k);
          ConsHasKey(key, d[0], Deduped(key, rest), k);
          if k != Some(c) { WithoutKeeps(key, tail, c, k); }
        }
        NotAgain(key, d[0], Deduped(key, rest));
      }
    }
  }

  lemma ConsHasKey(key: Profile -> Option<string>, p: Profile, ps: seq<Profile>, k: Option<string>)
    ensures HasKey(key, [p] + ps, k) <==> key(p) == k || HasKey(key, ps, k)
  {
    if key(p) == k { assert p in [p] + ps; }
    if HasKey(key, ps, k) {
      var q :| q in ps && key(q) == k;
      assert q in [p] + ps;
    }
  }

  lemma NotAgain(key: Profile -> Option<string>, p: Profile, ps: seq<Profile>)
    requires DistinctKeys(key, ps) && !HasKey(key, ps, key(p))
    ensures DistinctKeys(key, [p] + ps)
  {
    forall j | 0 <= j < |ps| ensures key(ps[j]) != key(p) {
      assert ps[j] in ps;
    }
  }

  lemma {:induction false} DistinctIsFixed(key: Profile -> Option<string>, ps: seq<Profile>)
    requires DistinctKeys(key, ps)
    ensures Deduped(key, ps) == ps
    decreases |ps|
  {
    if ps != [] {
      var (p, tail) := (ps[0], ps[1..]);
      DistinctIsFixed(key, tail);
      if key(p).Some? {
        forall i | 0 <= i < |tail| ensures key(tail[i]) != key(p) { assert tail[i] == ps[i + 1]; }
        Untouched(key, p, tail, key(p).value);
      }
    }
  }

  lemma {:induction false} Untouched(key: Profile -> Option<string>, p: Profile, ps: seq<Profile>, c: string)
    requires forall i :: 0 <= i < |ps| ==> key(ps[i]) != Some(c)
    ensures Latest(key, p, ps, c) == p && Without(key, ps, c) == ps
    decreases ps
  {
    if ps != [] { Untouched(key, p, ps[1..], c); }
  }

  /** Deduplicating twice is deduplicating once. */
  lemma DedupeIsIdempotent(key: Profile -> Option<string>, ps: seq<Profile>)
    ensures Deduped(key, Deduped(key, ps)) == Deduped(key, ps)
  {
    OneEntryPerKey(key, ps);
    DistinctIsFixed(key, Deduped(key, ps));
  }

  /** Only the server identifies a profile: the identity, the measured delay, the
      subscription and the order are not looked at. So of two profiles for one server the
      later stays, and two for different servers both stay. */
  lemma OnlyServerCounts(encode: string -> Option<string>, p: Profile, q: Profile)
    requires encode(p.server).Some? && encode(q.server).Some?
    ensures p.server == q.server ==> Deduped(KeyOf(encode), [p, q]) == [q]
    ensures encode(p.server) != encode(q.server) ==> Deduped(KeyOf(encode), [p, q]) == [p, q]
  {
    var key := KeyOf(encode);
    assert [p, q][1..] == [q] && [q][1..] == [];
    var c := key(p).value;
    if key(q) == Some(c) {
      assert Without(key, [q], c) == [];
      assert Latest(key, p, [q], c) == Latest(key, q, [], c) == q;
    } else {
      Untouched(key, p, [q], c);
      assert Deduped(key, [q]) == [q];
    }
  }
}
