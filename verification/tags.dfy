/** Resource tags of a cluster and the tag-based eligibility rule shared by
    both directions. */
module Tags {
  import opened Wrappers
  import opened Text
  import Seqs

  /** One entry of the provider's tag list; the value may be missing. */
  datatype Tag = Tag(key: string, value: Option<string>)

  /** The value a tag contributes to the map: a missing value reads as "". */
  function ValueOf(t: Tag): string {
    t.value.GetOr("")
  }

  /** No later tag in the list repeats the key of entry `i`. */
  predicate LastWithKey(ts: seq<Tag>, i: int)
    requires 0 <= i < |ts|
  {
    forall j :: i < j < |ts| ==> ts[j].key != ts[i].key
  }

  /** The keys listed in `ts`. */
  function ListedKeys(ts: seq<Tag>): set<string> {
    set i | 0 <= i < |ts| :: ts[i].key
  }

  /** `m` is the dictionary built from `ts`: every listed key is present,
      nothing else is, and a repeated key maps to its last occurrence's value. */
  predicate Represents(ts: seq<Tag>, m: map<string, string>) {
    && m.Keys == ListedKeys(ts)
    && forall i :: 0 <= i < |ts| && LastWithKey(ts, i) ==> m[ts[i].key] == ValueOf(ts[i])
  }

  /** The tag list as a dictionary, later entries overriding earlier ones. */
  function TagMap(ts: seq<Tag>): (m: map<string, string>)
    ensures Represents(ts, m)
  {
    if ts == [] then map[]
    else
      var init := ts[..|ts| - 1];
      var last := ts[|ts| - 1];
      var m := TagMap(init)[last.key := ValueOf(last)];
      RepresentsSnoc(init, last, TagMap(init));
      Seqs.InitLast(ts);
      m
  }

  /** Adding one tag at the end overrides (or adds) its key. */
  lemma RepresentsSnoc(init: seq<Tag>, last: Tag, m: map<string, string>)
    requires Represents(init, m)
    ensures Represents(init + [last], m[last.key := ValueOf(last)])
  {
    var ts := init + [last];
    var m' := m[last.key := ValueOf(last)];
    assert forall i :: 0 <= i < |init| ==> ts[i] == init[i];
    assert ListedKeys(ts) == ListedKeys(init) + {last.key} by {
      forall k | k in ListedKeys(ts)
        ensures k in ListedKeys(init) + {last.key}
      {
        var i :| 0 <= i < |ts| && ts[i].key == k;
        if i < |init| {
          assert init[i].key == k;
        }
      }
      assert ts[|init|].key == last.key;
    }
    forall i | 0 <= i < |ts| && LastWithKey(ts, i)
      ensures m'[ts[i].key] == ValueOf(ts[i])
    {
      if i < |init| {
        assert ts[|init|] == last;
        assert LastWithKey(init, i);
      }
    }
  }

  /** The last position in the list that carries key `k`, when there is one. */
  lemma {:induction false} LastOccurrence(ts: seq<Tag>, i: int) returns (j: int)
    requires 0 <= i < |ts|
    ensures i <= j < |ts| && ts[j].key == ts[i].key && LastWithKey(ts, j)
    decreases |ts| - i
  {
    if LastWithKey(ts, i) {
      j := i;
    } else {
      var n :| i < n < |ts| && ts[n].key == ts[i].key;
      j := LastOccurrence(ts, n);
    }
  }

  /** Tag eligibility: the configured key is present, matched exactly, and
      its value lowered equals the configured value (already lowered). */
  function Eligible(tags: map<string, string>, key: string, value: string): (ok: bool)
    ensures ok ==> key in tags && IsLower(value)
    ensures key !in tags ==> !ok
  {
    LowerIsLower(if key in tags then tags[key] else "");
    key in tags && Lower(tags[key]) == value
  }

  /** For a lower-case configured value, eligibility is presence of the exact
      key plus a case-insensitive match of its value. */
  lemma EligibleIff(tags: map<string, string>, key: string, value: string)
    requires IsLower(value)
    ensures Eligible(tags, key, value) <==> key in tags && EqualIgnoringCase(tags[key], value)
  {
    LowerOfLower(value);
    if key in tags {
      LowerEqIff(tags[key], value);
    }
  }

  /** Eligibility read off the raw tag list: the last tag carrying the
      configured key decides, with a missing value read as "". */
  lemma EligibleFromList(ts: seq<Tag>, key: string, value: string)
    requires IsLower(value)
    ensures Eligible(TagMap(ts), key, value) <==>
      exists i :: 0 <= i < |ts| && ts[i].key == key && LastWithKey(ts, i)
        && EqualIgnoringCase(ValueOf(ts[i]), value)
  {
    var m := TagMap(ts);
    EligibleIff(m, key, value);
    if key in m {
      assert key in ListedKeys(ts);
      var i :| 0 <= i < |ts| && ts[i].key == key;
      var j := LastOccurrence(ts, i);
      assert m[key] == ValueOf(ts[j]);
      forall n | 0 <= n < |ts| && ts[n].key == key && LastWithKey(ts, n)
        ensures n == j
      {
      }
    }
  }

  /** The tags shown in a cluster's log line: those whose key equals the
      configured key up to case. */
  function LoggedTags(tags: map<string, string>, key: string): (r: map<string, string>)
    ensures forall k :: k in r <==> k in tags && EqualIgnoringCase(k, key)
    ensures forall k :: k in r ==> r[k] == tags[k]
  {
    var r := map k | k in tags && Lower(k) == Lower(key) :: tags[k];
    forall k {
      LowerEqIff(k, key);
    }
    r
  }

  /** Whenever a cluster is eligible, its log line shows the deciding tag. */
  lemma LoggedTagsShowKey(tags: map<string, string>, key: string, value: string)
    requires Eligible(tags, key, value)
    ensures key in LoggedTags(tags, key) && LoggedTags(tags, key)[key] == tags[key]
  {
    LowerEqIff(key, key);
  }
}
