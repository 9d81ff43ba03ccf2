/**
 * The loosely typed values the journal server moves around: JSON documents as Python
 * sees them after decoding. A dictionary is an association list in insertion order,
 * because the order of a Python `dict` is observable (iteration, `list(d.keys())`).
 */
module Json {
  import opened Wrappers

  datatype Json =
    | Null
    | Bool(b: bool)
    | Int(i: int)
    | Str(s: string)
    | List(items: seq<Json>)
    | Dict(fields: seq<(string, Json)>)

  /** The entries of a dictionary, in insertion order. */
  type Fields = seq<(string, Json)>

  /** `list(d.keys())` */
  function Keys(fs: Fields): seq<string> {
    if fs == [] then [] else [fs[0].0] + Keys(fs[1..])
  }

  /** `list(d.values())` */
  function Values(fs: Fields): seq<Json> {
    if fs == [] then [] else [fs[0].1] + Values(fs[1..])
  }

  /** A Python dict never holds a key twice. */
  ghost predicate UniqueKeys(fs: Fields) {
    forall i, j :: 0 <= i < j < |fs| ==> fs[i].0 != fs[j].0
  }

  /** `d[k]` when `k in d`, else nothing. */
  function Get(fs: Fields, k: string): Option<Json> {
    if fs == [] then None
    else if fs[0].0 == k then Some(fs[0].1)
    else Get(fs[1..], k)
  }

  /** `d.get(k, default)` */
  function GetOr(fs: Fields, k: string, default: Json): Json {
    Get(fs, k).GetOr(default)
  }

  /** `d[k] = v`: an existing key keeps its position, a new one goes last. */
  function Set(fs: Fields, k: string, v: Json): Fields {
    if fs == [] then [(k, v)]
    else if fs[0].0 == k then [(k, v)] + fs[1..]
    else [fs[0]] + Set(fs[1..], k, v)
  }

  /** `del d[k]` when `k in d`; the other entries keep their order. */
  function Remove(fs: Fields, k: string): Fields {
    if fs == [] then []
    else if fs[0].0 == k then fs[1..]
    else [fs[0]] + Remove(fs[1..], k)
  }

  lemma {:induction false} KeysLength(fs: Fields)
    ensures |Keys(fs)| == |fs| && |Values(fs)| == |fs|
    ensures forall i :: 0 <= i < |fs| ==> Keys(fs)[i] == fs[i].0 && Values(fs)[i] == fs[i].1
  {
    if fs != [] {
      KeysLength(fs[1..]);
    }
  }

  /** `k in d` holds exactly when `k` is among the keys. */
  lemma {:induction false} GetIffInKeys(fs: Fields, k: string)
    ensures Get(fs, k).Some? <==> k in Keys(fs)
    ensures Get(fs, k).Some? ==> (k, Get(fs, k).value) in fs
  {
    if fs != [] {
      GetIffInKeys(fs[1..], k);
    }
  }

  /** In a dict, looking up the key of an entry finds that entry's value. */
  lemma {:induction false} GetAt(fs: Fields, i: nat)
    requires UniqueKeys(fs) && i < |fs|
    ensures Get(fs, fs[i].0) == Some(fs[i].1)
  {
    if i > 0 {
      UniqueKeysTail(fs);
      GetAt(fs[1..], i - 1);
    }
  }

  /** After `d[k] = v`, `d[k]` is `v`. */
  lemma {:induction false} GetSetSame(fs: Fields, k: string, v: Json)
    ensures Get(Set(fs, k, v), k) == Some(v)
  {
    if fs != [] && fs[0].0 != k {
      GetSetSame(fs[1..], k, v);
    }
  }

  /** `d[k] = v` leaves every other key's value alone. */
  lemma {:induction false} GetSetOther(fs: Fields, k: string, v: Json, k': string)
    requires k' != k
    ensures Get(Set(fs, k, v), k') == Get(fs, k')
  {
    if fs != [] && fs[0].0 != k {
      GetSetOther(fs[1..], k, v, k');
    }
  }

  /** `d[k] = v` appends a new key, and keeps the key order when `k` was present. */
  lemma {:induction false} KeysSet(fs: Fields, k: string, v: Json)
    ensures Keys(Set(fs, k, v)) == if Get(fs, k).Some? then Keys(fs) else Keys(fs) + [k]
  {
    if fs != [] && fs[0].0 != k {
      KeysSet(fs[1..], k, v);
    }
  }

  /** After `d[k] = v` every entry is the new one or an entry `d` already had. */
  lemma {:induction false} SetEntries(fs: Fields, k: string, v: Json)
    ensures forall e :: e in Set(fs, k, v) ==> e == (k, v) || e in fs
  {
    if fs != [] && fs[0].0 != k {
      SetEntries(fs[1..], k, v);
    }
  }

  /** Assigning a key twice is assigning it the second value once. */
  lemma {:induction false} SetTwice(fs: Fields, k: string, v1: Json, v2: Json)
    ensures Set(Set(fs, k, v1), k, v2) == Set(fs, k, v2)
  {
    if fs != [] && fs[0].0 != k {
      SetTwice(fs[1..], k, v1, v2);
    }
  }

  /** `d[k] = v` on a dict that lacks `k` is exactly an append. */
  lemma {:induction false} SetAbsentAppends(fs: Fields, k: string, v: Json)
    requires Get(fs, k).None?
    ensures Set(fs, k, v) == fs + [(k, v)]
  {
    if fs != [] {
      SetAbsentAppends(fs[1..], k, v);
      assert [fs[0]] + (fs[1..] + [(k, v)]) == fs + [(k, v)];
    }
  }

  lemma {:induction false} UniqueKeysTail(fs: Fields)
    requires fs != [] && UniqueKeys(fs)
    ensures UniqueKeys(fs[1..]) && fs[0].0 !in Keys(fs[1..])
  {
    KeysLength(fs[1..]);
  }

  lemma {:induction false} UniqueKeysCons(e: (string, Json), fs: Fields)
    requires UniqueKeys(fs) && e.0 !in Keys(fs)
    ensures UniqueKeys([e] + fs)
  {
    KeysLength(fs);
    var r := [e] + fs;
    forall i, j | 0 <= i < j < |r| ensures r[i].0 != r[j].0 {
      if i == 0 {
        assert r[j].0 == Keys(fs)[j - 1];
      } else {
        assert r[i] == fs[i - 1] && r[j] == fs[j - 1];
      }
    }
  }

  /** Assignment keeps the keys of a dict distinct. */
  lemma {:induction false} UniqueSet(fs: Fields, k: string, v: Json)
    requires UniqueKeys(fs)
    ensures UniqueKeys(Set(fs, k, v))
  {
    if fs == [] {
    } else if fs[0].0 == k {
      UniqueKeysTail(fs);
      UniqueKeysCons((k, v), fs[1..]);
    } else {
      UniqueKeysTail(fs);
      UniqueSet(fs[1..], k, v);
      KeysSet(fs[1..], k, v);
      UniqueKeysCons(fs[0], Set(fs[1..], k, v));
    }
  }

  /** After `del d[k]` the key is gone (a dict holds it at most once). */
  lemma {:induction false} GetRemoveSame(fs: Fields, k: string)
    requires UniqueKeys(fs)
    ensures Get(Remove(fs, k), k) == None
  {
    if fs != [] {
      UniqueKeysTail(fs);
      if fs[0].0 == k {
        GetIffInKeys(fs[1..], k);
      } else {
        GetRemoveSame(fs[1..], k);
      }
    }
  }

  /** `del d[k]` leaves every other key's value alone. */
  lemma {:induction false} GetRemoveOther(fs: Fields, k: string, k': string)
    requires k' != k
    ensures Get(Remove(fs, k), k') == Get(fs, k')
  {
    if fs != [] && fs[0].0 != k {
      GetRemoveOther(fs[1..], k, k');
    }
  }

  /** `del d[k]` on a present key drops the entry at the position `i` of its first occurrence. */
  lemma {:induction false} RemoveIndex(fs: Fields, k: string) returns (i: nat)
    requires Get(fs, k).Some?
    ensures i < |fs| && fs[i].0 == k && Remove(fs, k) == fs[..i] + fs[i + 1..]
  {
    if fs[0].0 == k {
      i := 0;
      assert fs[..0] + fs[1..] == fs[1..];
    } else {
      var j := RemoveIndex(fs[1..], k);
      i := j + 1;
      assert fs[1..][..j] == fs[1..i] && fs[1..][j + 1..] == fs[i + 1..];
      assert [fs[0]] + fs[1..i] == fs[..i];
    }
  }

  /** `del d[k]` on an absent key changes nothing. */
  lemma {:induction false} RemoveAbsent(fs: Fields, k: string)
    requires Get(fs, k).None?
    ensures Remove(fs, k) == fs
  {
    if fs != [] {
      RemoveAbsent(fs[1..], k);
    }
  }

  /** `del d[k]` drops exactly the entry holding `k` and keeps the others in order. */
  lemma RemoveDropsOneEntry(fs: Fields, k: string)
    ensures Get(fs, k).None? ==> Remove(fs, k) == fs
    ensures Get(fs, k).Some? ==>
      exists i :: 0 <= i < |fs| && fs[i].0 == k && Remove(fs, k) == fs[..i] + fs[i + 1..]
  {
    if Get(fs, k).Some? {
      var i := RemoveIndex(fs, k);
    } else {
      RemoveAbsent(fs, k);
    }
  }

  /** Removal keeps the keys of a dict distinct. */
  lemma {:induction false} UniqueRemove(fs: Fields, k: string)
    requires UniqueKeys(fs)
    ensures UniqueKeys(Remove(fs, k))
  {
    if fs != [] {
      UniqueKeysTail(fs);
      if fs[0].0 != k {
        UniqueRemove(fs[1..], k);
        RemoveKeysSubset(fs[1..], k);
        UniqueKeysCons(fs[0], Remove(fs[1..], k));
      }
    }
  }

  lemma {:induction false} RemoveKeysSubset(fs: Fields, k: string)
    ensures forall x :: x in Keys(Remove(fs, k)) ==> x in Keys(fs)
  {
    if fs != [] && fs[0].0 != k {
      RemoveKeysSubset(fs[1..], k);
    }
  }
}
