/** The field/value map of a submitted html form (`FormData`): lookup by
    field name, the checkbox test, and the url string used for posts and gets. */
module Forms {
  import opened Wrappers

  /** One dictionary entry. Keys are never null; a value may be. */
  datatype Entry = Entry(key: string, value: Option<string>)

  /** The entries of `RawFields` in the dictionary's iteration order. */
  type Fields = seq<Entry>

  /** A form over `RawFields`, which may itself be null. */
  datatype FormData = FormData(rawFields: Option<Fields>)

  /** A dictionary never holds two entries with the same key. */
  predicate DistinctKeys(f: Fields)
  {
    forall i, j :: 0 <= i < j < |f| ==> f[i].key != f[j].key
  }

  predicate WellFormed(fd: FormData)
  {
    fd.rawFields.Some? ==> DistinctKeys(fd.rawFields.value)
  }

  /** `TryGetValue`: the value stored under `name`, or null when there is none. */
  function Find(f: Fields, name: string): (r: Option<string>)
    ensures (forall i :: 0 <= i < |f| ==> f[i].key != name) ==> r.None?
    ensures (exists i :: 0 <= i < |f| && f[i].key == name) ==>
              exists i :: 0 <= i < |f| && f[i].key == name && r == f[i].value
  {
    if f == [] then None
    else if f[0].key == name then f[0].value
    else
      var r := Find(f[1..], name);
      assert forall i :: 0 <= i < |f| - 1 ==> f[1..][i] == f[i + 1];
      r
  }

  /** The indexer `form[name]`. */
  function Get(fd: FormData, name: string): (r: Option<string>)
    ensures fd.rawFields.None? ==> r.None?
    ensures (fd.rawFields.Some? && forall i :: 0 <= i < |fd.rawFields.value| ==> fd.rawFields.value[i].key != name)
              ==> r.None?
  {
    if fd.rawFields.None? then None else Find(fd.rawFields.value, name)
  }

  /** With distinct keys the indexer returns exactly the value stored under the
      name, whichever entry holds it. */
  lemma GetFindsStoredValue(fd: FormData, name: string, i: nat)
    requires WellFormed(fd) && fd.rawFields.Some?
    requires i < |fd.rawFields.value| && fd.rawFields.value[i].key == name
    ensures Get(fd, name) == fd.rawFields.value[i].value
  {
  }

  lemma GetAgreesWithEveryEntry(fd: FormData, name: string)
    requires WellFormed(fd) && fd.rawFields.Some?
    ensures forall i :: 0 <= i < |fd.rawFields.value| && fd.rawFields.value[i].key == name ==>
              Get(fd, name) == fd.rawFields.value[i].value
  {
    forall i | 0 <= i < |fd.rawFields.value| && fd.rawFields.value[i].key == name {
      GetFindsStoredValue(fd, name, i);
    }
  }

  /** `Checked`: the named field holds a non-null, non-empty value. */
  function Checked(fd: FormData, name: string): (b: bool)
    ensures WellFormed(fd) ==>
              (b <==> fd.rawFields.Some? &&
                      exists i :: 0 <= i < |fd.rawFields.value| && fd.rawFields.value[i].key == name &&
                                  fd.rawFields.value[i].value.Some? && fd.rawFields.value[i].value.value != "")
  {
    var v := Get(fd, name);
    if fd.rawFields.Some? && WellFormed(fd) then
      GetAgreesWithEveryEntry(fd, name);
      v.Some? && v.value != ""
    else
      v.Some? && v.value != ""
  }

  /** The text a value contributes: string concatenation turns null into "". */
  function ValueText(v: Option<string>): string
  {
    if v.Some? then v.value else ""
  }

  /** One `key=value` pair; only the key goes through the url encoder. */
  function Pair(encode: string -> string, e: Entry): string
  {
    encode(e.key) + "=" + ValueText(e.value)
  }

  function Pairs(encode: string -> string, f: Fields): (ps: seq<string>)
    ensures |ps| == |f|
  {
    seq(|f|, i requires 0 <= i < |f| => Pair(encode, f[i]))
  }

  /** The parts with one separator between each neighbouring two. */
  function Join(parts: seq<string>, sep: char): string
  {
    if |parts| == 0 then ""
    else if |parts| == 1 then parts[0]
    else parts[0] + [sep] + Join(parts[1..], sep)
  }

  lemma {:induction false} JoinAppend(ps: seq<string>, p: string, sep: char)
    requires ps != []
    ensures Join(ps + [p], sep) == Join(ps, sep) + [sep] + p
  {
    if |ps| == 1 {
      assert (ps + [p])[1..] == [p];
    } else {
      assert (ps + [p])[1..] == ps[1..] + [p];
      JoinAppend(ps[1..], p, sep);
    }
  }

  /** `ToUrlString`: "" for a null map, and otherwise the entries' pairs in
      iteration order joined by "&" (so "" for an empty map). */
  method ToUrlString(fd: FormData, encode: string -> string) returns (r: string)
    ensures fd.rawFields.None? ==> r == ""
    ensures fd.rawFields.Some? ==> r == Join(Pairs(encode, fd.rawFields.value), '&')
  {
    if fd.rawFields.None? {
      return "";
    }
    var f := fd.rawFields.value;
    var postString := "";
    var i := 0;
    while i < |f|
      invariant 0 <= i <= |f|
      invariant postString == Join(Pairs(encode, f[..i]), '&')
      invariant postString == "" <==> i == 0
    {
      assert Pairs(encode, f[..i + 1]) == Pairs(encode, f[..i]) + [Pair(encode, f[i])];
      if postString != "" {
        postString := postString + "&";
      }
      postString := postString + (encode(f[i].key) + "=" + ValueText(f[i].value));
      if i > 0 {
        JoinAppend(Pairs(encode, f[..i]), Pair(encode, f[i]), '&');
      }
      i := i + 1;
    }
    assert f[..i] == f;
    return postString;
  }

  /** The first occurrence of `c` in `s`, or `|s|` when there is none. */
  function IndexOf(s: string, c: char): (i: nat)
    ensures i <= |s|
    ensures i < |s| ==> s[i] == c
    ensures forall k :: 0 <= k < i ==> s[k] != c
  {
    if s == [] then 0 else if s[0] == c then 0 else 1 + IndexOf(s[1..], c)
  }

  /** The pieces of `s` between occurrences of `c`. */
  function Split(s: string, c: char): seq<string>
    decreases |s|
  {
    var i := IndexOf(s, c);
    if i == |s| then [s] else [s[..i]] + Split(s[i + 1..], c)
  }

  /** A pair split at its first "=". */
  function ParsePair(s: string): (string, string)
  {
    var i := IndexOf(s, '=');
    (s[..i], if i < |s| then s[i + 1..] else "")
  }

  lemma IndexOfAfter(p: string, c: char, t: string)
    requires c !in p
    ensures IndexOf(p + [c] + t, c) == |p|
  {
    var s := p + [c] + t;
    var i := IndexOf(s, c);
    assert s[|p|] == c;
    assert forall k :: 0 <= k < |p| ==> s[k] == p[k];
  }

  /** Splitting a join recovers the parts when no part holds the separator. */
  lemma {:induction false} SplitJoin(ps: seq<string>, c: char)
    requires ps != []
    requires forall k :: 0 <= k < |ps| ==> c !in ps[k]
    ensures Split(Join(ps, c), c) == ps
  {
    if |ps| == 1 {
      assert forall k :: 0 <= k < |ps[0]| ==> ps[0][k] != c;
    } else {
      var s := Join(ps, c);
      var rest := Join(ps[1..], c);
      assert s == ps[0] + [c] + rest;
      IndexOfAfter(ps[0], c, rest);
      assert s[..|ps[0]|] == ps[0];
      assert s[|ps[0]| + 1..] == rest;
      SplitJoin(ps[1..], c);
      assert ps == [ps[0]] + ps[1..];
    }
  }

  /** A url string can be taken apart again: when the encoder never emits "&"
      or "=" and no value holds "&", splitting at "&" and each pair at its first
      "=" gives back every entry's encoded key and value, in order. */
  lemma UrlStringParses(encode: string -> string, f: Fields)
    requires f != []
    requires forall k :: 0 <= k < |f| ==> '&' !in encode(f[k].key) && '=' !in encode(f[k].key)
    requires forall k :: 0 <= k < |f| ==> '&' !in ValueText(f[k].value)
    ensures var parts := Split(Join(Pairs(encode, f), '&'), '&');
            && |parts| == |f|
            && forall k :: 0 <= k < |f| ==>
                 ParsePair(parts[k]) == (encode(f[k].key), ValueText(f[k].value))
  {
    var ps := Pairs(encode, f);
    forall k | 0 <= k < |f|
      ensures '&' !in ps[k]
      ensures ParsePair(ps[k]) == (encode(f[k].key), ValueText(f[k].value))
    {
      var key := encode(f[k].key);
      var val := ValueText(f[k].value);
      assert ps[k] == key + ['='] + val;
      IndexOfAfter(key, '=', val);
      assert ps[k][..|key|] == key;
      assert ps[k][|key| + 1..] == val;
    }
    SplitJoin(ps, '&');
  }
}
