/**
 * The string and tag helpers of the monitor's data-source manager: the time filter of an
 * InfluxDB query and its defaults, the order-preserving union of tag values and its use to merge
 * the tag values of a measurement, and the predicates that drop tag keys and tag values (ids)
 * from what is shown.
 *
 * Queries to InfluxDB, the goroutines that run them and the parsing of the JSON query are not
 * modelled; a query's string parameters are a map, and the validation of the time range is a
 * function parameter.
 */
module Datasource {
  import opened Wrappers
  import opened Strings
  import opened Seqs

  // ----- union of tag values -----

  /** The elements of `s2` that do not occur in `s1`, in order and with their repetitions. */
  function Missing(s1: seq<string>, s2: seq<string>): (r: seq<string>)
    ensures |r| <= |s2|
    ensures forall v :: v in r <==> v in s2 && v !in s1
  {
    if s2 == [] then []
    else
      var init := s2[..|s2| - 1];
      var v := s2[|s2| - 1];
      assert s2 == init + [v];
      Missing(s1, init) + (if v in s1 then [] else [v])
  }

  /**
   * `union(s1, s2)`: `s1` followed by the elements of `s2` that are not in `s1`. The count map
   * is filled from `s1` only, so an element of `s2` that occurs there twice is appended twice.
   */
  function Union(s1: seq<string>, s2: seq<string>): (r: seq<string>)
    ensures s1 <= r
    ensures forall v :: v in s2 ==> v in r
    ensures forall v :: v in r ==> v in s1 || v in s2
    ensures |r| <= |s1| + |s2|
  {
    s1 + Missing(s1, s2)
  }

  /** How often `v` occurs in `s`. */
  function Count(s: seq<string>, v: string): nat {
    if s == [] then 0 else Count(s[..|s| - 1], v) + (if s[|s| - 1] == v then 1 else 0)
  }

  /**
   * An element missing from `s1` is appended once for every time it occurs in `s2`; an element
   * already in `s1` is not appended at all.
   */
  lemma {:induction false} MissingCount(s1: seq<string>, s2: seq<string>, v: string)
    ensures Count(Missing(s1, s2), v) == if v in s1 then 0 else Count(s2, v)
  {
    if s2 != [] {
      var init := s2[..|s2| - 1];
      var last := s2[|s2| - 1];
      MissingCount(s1, init, v);
      CountAppend(Missing(s1, init), if last in s1 then [] else [last], v);
    }
  }

  lemma {:induction false} CountAppend(a: seq<string>, b: seq<string>, v: string)
    ensures Count(a + b, v) == Count(a, v) + Count(b, v)
    decreases |b|
  {
    if b != [] {
      var ab := a + b;
      assert ab[..|ab| - 1] == a + b[..|b| - 1];
      assert ab[|ab| - 1] == b[|b| - 1];
      CountAppend(a, b[..|b| - 1], v);
    } else {
      assert a + b == a;
    }
  }

  /**
   * How often a value occurs in a union: as often as in `s1` when it is there, and otherwise
   * as often as in `s2`, since repeated values of `s2` are not collapsed.
   */
  lemma UnionCount(s1: seq<string>, s2: seq<string>, v: string)
    ensures Count(Union(s1, s2), v) == Count(s1, v) + if v in s1 then 0 else Count(s2, v)
  {
    CountAppend(s1, Missing(s1, s2), v);
    MissingCount(s1, s2, v);
  }

  /** The appended values keep the order they have in `s2`. */
  lemma {:induction false} MissingIsSubseq(s1: seq<string>, s2: seq<string>)
    ensures IsSubseq(Missing(s1, s2), s2)
  {
    if s2 != [] {
      var init := s2[..|s2| - 1];
      var v := s2[|s2| - 1];
      assert s2 == init + [v];
      MissingIsSubseq(s1, init);
      SubseqSnoc(Missing(s1, init), init, v);
      if v !in s1 {
        assert Missing(s1, s2) == Missing(s1, init) + [v];
      } else {
        assert Missing(s1, s2) == Missing(s1, init);
      }
    }
  }

  /** A union with values that are all present already changes nothing. */
  lemma {:induction false} MissingNone(s1: seq<string>, s2: seq<string>)
    requires forall v :: v in s2 ==> v in s1
    ensures Missing(s1, s2) == []
  {
    if s2 != [] {
      MissingNone(s1, s2[..|s2| - 1]);
      assert s2[|s2| - 1] in s2;
    }
  }

  /** Taking the union with the same list again adds nothing. */
  lemma UnionTwice(s1: seq<string>, s2: seq<string>)
    ensures Union(Union(s1, s2), s2) == Union(s1, s2)
  {
    MissingNone(Union(s1, s2), s2);
  }

  /** The count map of a list: its values, each with how often it occurs (at least once). */
  method CountMap(s: seq<string>) returns (m: map<string, nat>)
    ensures forall v :: v in m <==> v in s
    ensures forall v :: v in m ==> m[v] > 0
  {
    m := map[];
    for i := 0 to |s|
      invariant forall v :: v in m <==> v in s[..i]
      invariant forall v :: v in m ==> m[v] > 0
    {
      var v := s[i];
      m := m[v := (if v in m then m[v] else 0) + 1];
      assert s[..i + 1] == s[..i] + [v];
    }
    assert s[..|s|] == s;
  }

  /** `union`, with its count map of the first list. */
  method UnionOf(slice1: seq<string>, slice2: seq<string>) returns (r: seq<string>)
    ensures r == Union(slice1, slice2)
  {
    var m := CountMap(slice1);
    r := slice1;
    for j := 0 to |slice2|
      invariant r == slice1 + Missing(slice1, slice2[..j])
    {
      var v := slice2[j];
      var times := if v in m then m[v] else 0;
      assert times == 0 <==> v !in slice1;
      assert slice2[..j + 1][..j] == slice2[..j];
      assert Missing(slice1, slice2[..j + 1]) == Missing(slice1, slice2[..j]) + (if v in slice1 then [] else [v]);
      if times == 0 {
        r := r + [v];
      }
    }
    assert slice2[..|slice2|] == slice2;
  }

  // ----- merging the tag values of a measurement -----

  /** The tag values of a measurement after merging `rtn` into them for the tags `keys`, in order. */
  function TagValUnioned(tv: map<string, seq<string>>, keys: seq<string>, rtn: map<string, seq<string>>)
    : (r: map<string, seq<string>>)
    ensures r.Keys == tv.Keys + (set i | 0 <= i < |keys| && keys[i] in rtn :: keys[i])
  {
    if keys == [] then tv
    else
      var prev := TagValUnioned(tv, keys[..|keys| - 1], rtn);
      var tag := keys[|keys| - 1];
      assert forall i :: 0 <= i < |keys| - 1 ==> keys[..|keys| - 1][i] == keys[i];
      if tag !in rtn then prev
      else if tag !in prev then prev[tag := rtn[tag]]
      else prev[tag := Union(prev[tag], rtn[tag])]
  }

  /**
   * Only tags that are both keys of the measurement and keys of `rtn` change. Such a tag with no
   * values yet takes `rtn`'s list; otherwise it becomes the union of its values and `rtn`'s,
   * however often the tag is repeated among the keys.
   */
  lemma {:induction false} TagValUnionedMeaning(tv: map<string, seq<string>>, keys: seq<string>,
                                               rtn: map<string, seq<string>>, tag: string)
    ensures var r := TagValUnioned(tv, keys, rtn);
      (tag !in keys || tag !in rtn ==> (tag in r <==> tag in tv) && (tag in r ==> r[tag] == tv[tag])) &&
      (tag in keys && tag in rtn ==> tag in r && r[tag] == if tag in tv then Union(tv[tag], rtn[tag]) else rtn[tag])
  {
    if keys != [] {
      var init := keys[..|keys| - 1];
      TagValUnionedMeaning(tv, init, rtn, tag);
      assert keys == init + [keys[|keys| - 1]];
      var prev := TagValUnioned(tv, init, rtn);
      if keys[|keys| - 1] == tag && tag in rtn && tag in prev {
        if tag in init {
          if tag in tv {
            UnionTwice(tv[tag], rtn[tag]);
          } else {
            UnionTwice(rtn[tag], rtn[tag]);
            MissingNone(rtn[tag], rtn[tag]);
          }
        }
      }
    }
  }

  /** A measurement as the tag-value query fills it in. */
  class InfluxMeasurement {
    const measurement: string
    const tagKey: seq<string>
    var tagValue: map<string, seq<string>>

    constructor(measurement: string, tagKey: seq<string>, tagValue: map<string, seq<string>>)
      ensures this.measurement == measurement && this.tagKey == tagKey && this.tagValue == tagValue
    {
      this.measurement := measurement;
      this.tagKey := tagKey;
      this.tagValue := tagValue;
    }

    /** `tagValUnion`: merges the values `rtn` has for each of the measurement's tag keys. */
    method TagValUnion(rtn: map<string, seq<string>>)
      modifies this
      ensures tagValue == TagValUnioned(old(tagValue), tagKey, rtn)
    {
      for i := 0 to |tagKey|
        invariant tagValue == TagValUnioned(old(tagValue), tagKey[..i], rtn)
      {
        var tag := tagKey[i];
        assert tagKey[..i + 1][..i] == tagKey[..i];
        if tag in rtn {
          if tag !in tagValue {
            tagValue := tagValue[tag := rtn[tag]];
            continue;
          }
          var merged := UnionOf(tagValue[tag], rtn[tag]);
          tagValue := tagValue[tag := merged];
        }
      }
      assert tagKey[..|tagKey|] == tagKey;
    }
  }

  // ----- the time filter -----

  /**
   * `renderTimeFilter`: "time > now() - " and the start without its first "now-", then, unless
   * the end is "now" or empty, " and time < now() - " and the end without its first "now-".
   */
  function RenderTimeFilter(from: string, to: string): (r: string)
    ensures "time > now() - " <= r
    ensures to == "now" || to == [] ==> r == "time > now() - " + RemoveFirst(from, "now-")
    ensures to != "now" && to != [] ==>
      r == "time > now() - " + RemoveFirst(from, "now-") + " and time < now() - " + RemoveFirst(to, "now-")
  {
    var start := if Contains(from, "now-") then "now() - " + RemoveFirst(from, "now-") else "now() - " + from;
    var upper := if to != "now" && to != [] then " and time < now() - " + RemoveFirst(to, "now-") else [];
    assert start == "now() - " + RemoveFirst(from, "now-");
    assert "time > " + start == "time > now() - " + RemoveFirst(from, "now-");
    "time > " + start + upper
  }

  /** A relative start "now-6h" and a relative end "now-1h" become the bounds 6h and 1h ago. */
  lemma {:induction false} RenderRelativeRange(d1: string, d2: string)
    requires d2 != [] && d2 != "now"
    ensures RenderTimeFilter("now-" + d1, "now-" + d2) == "time > now() - " + d1 + " and time < now() - " + d2
  {
    RemoveFirstOfPrefixed("now-", d1);
    RemoveFirstOfPrefixed("now-", d2);
  }

  /** The time range of a query. */
  datatype TimeFilter = TimeFilter(from: string, to: string)

  /** `query.GetString(key)`, "" when the key is absent. */
  function GetString(query: map<string, string>, key: string): string {
    if key in query then query[key] else []
  }

  /** The range read from `fromKey` and "to", with the defaults "6h" and "now", then validated. */
  function FromAndTo(query: map<string, string>, fromKey: string, validate: TimeFilter -> Option<string>)
    : (r: Result<TimeFilter, string>)
    ensures r.Ok? ==> r.value.from != [] && r.value.to != []
    ensures r.Ok? ==> (GetString(query, fromKey) == [] ==> r.value.from == "6h") &&
                      (GetString(query, fromKey) != [] ==> r.value.from == query[fromKey])
    ensures r.Ok? ==> (GetString(query, "to") == [] ==> r.value.to == "now") &&
                      (GetString(query, "to") != [] ==> r.value.to == query["to"])
    ensures r.Err? <==> validate(TimeFilter(
      if GetString(query, fromKey) == [] then "6h" else GetString(query, fromKey),
      if GetString(query, "to") == [] then "now" else GetString(query, "to"))).Some?
  {
    var from := if GetString(query, fromKey) == [] then "6h" else GetString(query, fromKey);
    var to := if GetString(query, "to") == [] then "now" else GetString(query, "to");
    var tf := TimeFilter(from, to);
    match validate(tf)
    case Some(e) => Err(e)
    case None => Ok(tf)
  }

  /** `getFromAndToFromParam` as written: the start is read from the key "form". */
  function GetFromAndToFromParam(query: map<string, string>, validate: TimeFilter -> Option<string>)
    : Result<TimeFilter, string>
  {
    FromAndTo(query, "form", validate)
  }

  /** The evidently intended reading: the start comes from the key "from". */
  function GetFromAndToFromParamFixed(query: map<string, string>, validate: TimeFilter -> Option<string>)
    : Result<TimeFilter, string>
  {
    FromAndTo(query, "from", validate)
  }

  /** A query giving "from" has its start ignored by the code as written. */
  lemma FromKeyIgnored(validate: TimeFilter -> Option<string>)
    requires validate(TimeFilter("6h", "now")).None?
    ensures GetFromAndToFromParam(map["from" := "1h"], validate) == Ok(TimeFilter("6h", "now"))
  {
    assert "form" != "from";
  }

  /** With the intended key, a start that is given is the start used. */
  lemma FromKeyHonoured(query: map<string, string>, validate: TimeFilter -> Option<string>)
    requires "from" in query && query["from"] != []
    requires GetFromAndToFromParamFixed(query, validate).Ok?
    ensures GetFromAndToFromParamFixed(query, validate).value.from == query["from"]
  {
  }

  // ----- tag filters -----

  /** Tag keys that are never shown. */
  const FilterKey: seq<string> := ["perf_instance", "res_type", "status", "cloudregion", "os_type", "is_vm"]

  /** Tag keys that may be shown. */
  const CanShowTags: seq<string> := ["host", "zone", "region", "tenant", "brand"]

  /** `filterTagKey`: an id-like key or one of the filtered names. */
  predicate FilterTagKey(key: string) {
    Contains(key, "_id") || key in FilterKey
  }

  /** A key with no '_' is filtered only when it is one of the filtered names. */
  lemma {:induction false} NoUnderscoreKey(key: string)
    requires '_' !in key
    ensures FilterTagKey(key) <==> key in FilterKey
  {
    forall j: nat ensures !OccursAt(key, "_id", j) {
      if j + 3 <= |key| {
        assert key[j..j + 3][0] == key[j];
      }
    }
  }

  /** None of the tags that may be shown is filtered. */
  lemma ShownTagsNotFiltered()
    ensures forall i :: 0 <= i < |CanShowTags| ==> !FilterTagKey(CanShowTags[i])
  {
    forall i | 0 <= i < |CanShowTags| ensures !FilterTagKey(CanShowTags[i]) {
      NoUnderscoreKey(CanShowTags[i]);
    }
  }

  /** A character `\w` matches: an ASCII letter, digit or '_'. */
  predicate IsWordChar(c: char) {
    'a' <= c <= 'z' || 'A' <= c <= 'Z' || '0' <= c <= '9' || c == '_'
  }

  /** The text at `i` matches 8 word characters, three times '-' and 4, then '-' and 12. */
  predicate UuidAt(s: string, i: nat) {
    i + 36 <= |s| &&
    forall j :: i <= j < i + 36 ==>
      if j - i in {8, 13, 18, 23} then s[j] == '-' else IsWordChar(s[j])
  }

  /** The first position from `i` on where the id pattern matches, if any. */
  function UuidFrom(s: string, i: nat): (r: Option<nat>)
    requires i <= |s|
    decreases |s| - i
    ensures r.Some? ==> i <= r.value && UuidAt(s, r.value) && forall j :: i <= j < r.value ==> !UuidAt(s, j)
    ensures r.None? ==> forall j :: i <= j ==> !UuidAt(s, j)
  {
    if i + 36 > |s| then None
    else if UuidAt(s, i) then Some(i)
    else UuidFrom(s, i + 1)
  }

  /** `filterTagValue`: the id pattern occurs anywhere in the value. */
  function FilterTagValue(val: string): (r: bool)
    ensures r <==> exists i: nat :: UuidAt(val, i)
  {
    UuidFrom(val, 0).Some?
  }

  /** A value with an id inside it is filtered, whatever surrounds it. */
  lemma {:induction false} EmbeddedIdFiltered(prefix: string, id: string, suffix: string)
    requires UuidAt(id, 0)
    ensures FilterTagValue(prefix + id + suffix)
  {
    var s := prefix + id + suffix;
    assert forall j :: |prefix| <= j < |prefix| + 36 ==> s[j] == id[j - |prefix|];
    assert UuidAt(s, |prefix|);
  }

  /** A value shorter than an id is never filtered. */
  lemma ShortValueKept(val: string)
    requires |val| < 36
    ensures !FilterTagValue(val)
  {
  }
}
