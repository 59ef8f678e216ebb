/**
 * What the frontend stores have in common: the settled value of an awaited
 * request, the error text a failed request leaves behind, and records keyed
 * by a list or board id (`Record<string, T[]>`).
 */
module ClientCache {
  import opened Common

  /**
   * How an awaited API call settles: with the response data, or rejected.
   * A rejection carries `error.response?.data?.message` when there is one.
   */
  datatype Reply<+T> = Answered(data: T) | Rejected(message: Option<string>)

  /** A record from a string key to a sequence of cached rows. */
  type Records<T> = map<string, seq<T>>

  /** `error.response?.data?.message || fallback`: the server's message, unless it is absent or empty. */
  function ErrorText(message: Option<string>, fallback: string): (r: string)
    ensures message.Some? && message.value != "" ==> r == message.value
    ensures message.None? || message.value == "" ==> r == fallback
    ensures fallback != "" ==> r != ""
  {
    if message.Some? && message.value != "" then message.value else fallback
  }

  /** `record[key] || []`: an absent key reads as the empty sequence (an array is truthy even when empty). */
  function Entry<T>(m: Records<T>, key: string): (r: seq<T>)
    ensures key in m ==> r == m[key]
    ensures key !in m ==> r == []
  {
    if key in m then m[key] else []
  }

  /** `{ ...record, [key]: v }`: only `key` changes and it now holds `v`. */
  function Put<T>(m: Records<T>, key: string, v: seq<T>): (r: Records<T>)
    ensures key in r && r[key] == v
    ensures r.Keys == m.Keys + {key}
    ensures forall k :: k in m && k != key ==> r[k] == m[k]
  {
    m[key := v]
  }

  /** `{ ...record, [key]: [...(record[key] || []), x] }`. */
  function Appended<T>(m: Records<T>, key: string, x: T): (r: Records<T>)
    ensures r.Keys == m.Keys + {key}
    ensures |r[key]| == |Entry(m, key)| + 1
    ensures r[key][..|Entry(m, key)|] == Entry(m, key) && r[key][|Entry(m, key)|] == x
    ensures forall k :: k in m && k != key ==> r[k] == m[k]
  {
    Put(m, key, Entry(m, key) + [x])
  }

  /** Storing the same sequence twice under a key is the same as storing it once. */
  lemma PutIdempotent<T>(m: Records<T>, key: string, v: seq<T>)
    ensures Put(Put(m, key, v), key, v) == Put(m, key, v)
  {
  }

  /** Storing under two different keys does not depend on the order of the two writes. */
  lemma PutCommutes<T>(m: Records<T>, k1: string, v1: seq<T>, k2: string, v2: seq<T>)
    requires k1 != k2
    ensures Put(Put(m, k1, v1), k2, v2) == Put(Put(m, k2, v2), k1, v1)
  {
  }

  /** Filtering out the only rejected element removes exactly its index and keeps the others in order. */
  lemma {:induction false} FilterDropsOne<T(!new)>(s: seq<T>, keep: T -> bool, p: nat)
    requires p < |s| && !keep(s[p])
    requires forall i :: 0 <= i < |s| && i != p ==> keep(s[i])
    ensures Filter(s, keep) == s[..p] + s[p + 1..]
  {
    if p == 0 {
      FilterDropsHead(s, keep);
    } else {
      var t := s[1..];
      assert forall i :: 0 <= i < |t| && i != p - 1 ==> keep(t[i]) by {
        forall i | 0 <= i < |t| && i != p - 1 ensures keep(t[i]) {
          assert t[i] == s[i + 1];
        }
      }
      assert t[p - 1] == s[p];
      FilterDropsOne(t, keep, p - 1);
      FilterKeepsHead(s, keep);
      ConsWithoutIndex(s, p);
    }
  }

  /** Putting the head back in front of the tail without index `p - 1` gives `s` without index `p`. */
  lemma ConsWithoutIndex<T>(s: seq<T>, p: nat)
    requires 0 < p < |s|
    ensures [s[0]] + (s[1..][..p - 1] + s[1..][p..]) == s[..p] + s[p + 1..]
  {
    var t := s[1..];
    calc {
      [s[0]] + (t[..p - 1] + t[p..]);
      { assert t[..p - 1] == s[1..p] && t[p..] == s[p + 1..]; }
      [s[0]] + (s[1..p] + s[p + 1..]);
      ([s[0]] + s[1..p]) + s[p + 1..];
      { assert s[..p] == [s[0]] + s[1..p]; }
      s[..p] + s[p + 1..];
    }
  }

  lemma FilterDropsHead<T(!new)>(s: seq<T>, keep: T -> bool)
    requires |s| > 0 && !keep(s[0])
    requires forall i :: 0 < i < |s| ==> keep(s[i])
    ensures Filter(s, keep) == s[1..]
  {
    var t := s[1..];
    assert forall i :: 0 <= i < |t| ==> keep(t[i]) by {
      forall i | 0 <= i < |t| ensures keep(t[i]) {
        assert t[i] == s[i + 1];
      }
    }
    FilterKeepsAll(t, keep);
  }

  lemma FilterKeepsHead<T(!new)>(s: seq<T>, keep: T -> bool)
    requires |s| > 0 && keep(s[0])
    ensures Filter(s, keep) == [s[0]] + Filter(s[1..], keep)
  {
  }
}
