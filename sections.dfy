/** A JSON object built by `dict.update`: an association list whose keys keep
    the position of their first insertion, and where updating an existing key
    replaces its value in place. */
module Sections {
  import opened Cli

  type Section<T> = seq<(string, T)>

  function Lookup<T>(s: Section<T>, key: string): (r: Option<T>)
  {
    if s == [] then None
    else if s[0].0 == key then Some(s[0].1)
    else Lookup(s[1..], key)
  }

  /** `d.update({key: v})`. */
  function Upsert<T>(s: Section<T>, key: string, v: T): (r: Section<T>)
    ensures |r| == if Lookup(s, key).Some? then |s| else |s| + 1
  {
    if s == [] then [(key, v)]
    else if s[0].0 == key then [(key, v)] + s[1..]
    else [s[0]] + Upsert(s[1..], key, v)
  }

  function Keys<T>(s: Section<T>): (ks: seq<string>)
  {
    if s == [] then [] else [s[0].0] + Keys(s[1..])
  }

  /** The key order after updating with `ns` in turn: each name not yet
      present is appended, and a repeated name stays where it first appeared. */
  function AddNew(ks: seq<string>, ns: seq<string>): (r: seq<string>)
    ensures |ks| <= |r| && r[..|ks|] == ks
    ensures forall n :: n in r <==> n in ks || n in ns
    decreases |ns|
  {
    if ns == [] then ks
    else
      var ks' := if ns[0] in ks then ks else ks + [ns[0]];
      var r := AddNew(ks', ns[1..]);
      assert ks'[..|ks|] == ks;
      assert forall n :: n in ns <==> n == ns[0] || n in ns[1..];
      r
  }

  /** No key occurs twice: the section is a well-formed JSON object. */
  predicate DistinctKeys<T>(s: Section<T>)
  {
    forall i, j :: 0 <= i < j < |s| ==> s[i].0 != s[j].0
  }

  /** After an update the key maps to the new value and no other key moves. */
  lemma {:induction false} LookupUpsert<T>(s: Section<T>, key: string, v: T, other: string)
    ensures Lookup(Upsert(s, key, v), other) == if other == key then Some(v) else Lookup(s, other)
  {
    if s != [] && s[0].0 != key {
      LookupUpsert(s[1..], key, v, other);
      assert Upsert(s, key, v)[1..] == Upsert(s[1..], key, v);
    }
  }

  /** A key is present exactly when it was present or was just inserted. */
  lemma {:induction false} LookupPresent<T>(s: Section<T>, key: string)
    ensures Lookup(s, key).Some? <==> key in Keys(s)
  {
    if s != [] {
      LookupPresent(s[1..], key);
    }
  }

  /** Python dict order: a new key goes to the end, an existing key keeps its
      place. */
  lemma {:induction false} KeysUpsert<T>(s: Section<T>, key: string, v: T)
    ensures Keys(Upsert(s, key, v)) == if key in Keys(s) then Keys(s) else Keys(s) + [key]
  {
    if s != [] && s[0].0 != key {
      KeysUpsert(s[1..], key, v);
      assert Upsert(s, key, v)[1..] == Upsert(s[1..], key, v);
    }
  }

  /** Every element of an updated section is the new pair or an old element. */
  lemma {:induction false} UpsertElements<T>(s: Section<T>, key: string, v: T)
    ensures forall e :: e in Upsert(s, key, v) ==> e == (key, v) || e in s
  {
    if s != [] && s[0].0 != key {
      UpsertElements(s[1..], key, v);
      assert Upsert(s, key, v) == [s[0]] + Upsert(s[1..], key, v);
    }
  }

  /** Updating keeps the keys distinct. */
  lemma {:induction false} UpsertDistinct<T>(s: Section<T>, key: string, v: T)
    requires DistinctKeys(s)
    ensures DistinctKeys(Upsert(s, key, v))
  {
    if s != [] {
      if s[0].0 == key {
        assert forall i :: 0 < i < |s| ==> Upsert(s, key, v)[i] == s[i];
      } else {
        assert DistinctKeys(s[1..]) by {
          forall i, j | 0 <= i < j < |s| - 1 ensures s[1..][i].0 != s[1..][j].0 {
            assert s[1..][i] == s[i + 1] && s[1..][j] == s[j + 1];
          }
        }
        UpsertDistinct(s[1..], key, v);
        var r := Upsert(s[1..], key, v);
        assert Upsert(s, key, v) == [s[0]] + r;
        UpsertElements(s[1..], key, v);
        forall e | e in r ensures e.0 != s[0].0 {
          if e != (key, v) {
            assert e in s[1..];
            var i :| 0 <= i < |s[1..]| && s[1..][i] == e;
            assert s[i + 1] == e;
          }
        }
        forall j | 0 < j < |[s[0]] + r| ensures ([s[0]] + r)[0].0 != ([s[0]] + r)[j].0 {
          assert ([s[0]] + r)[j] == r[j - 1];
          assert r[j - 1] in r;
        }
      }
    }
  }
}
