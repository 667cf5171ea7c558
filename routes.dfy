/**
 * `buildUrl` from the shared route table: each `:key` placeholder of a route path is
 * filled in, first occurrence only, by the value given for `key`, entry by entry.
 */
module Routes {
  import opened Wrappers
  import opened Text
  import opened JsText

  /** A parameter value: the source's `string | number` (numbers are integers here). */
  datatype ParamValue = Str(s: string) | Num(n: int)

  /** The parameters in the order `Object.entries` yields them. */
  type Params = seq<(string, ParamValue)>

  /** `String(value)`. */
  function ParamString(v: ParamValue): (r: string)
    ensures v.Str? ==> r == v.s
    ensures v.Num? ==> ParseDecimal(r) == Some(v.n as real)
  {
    match v
    case Str(s) => s
    case Num(n) =>
      ParseDecimalOfInt(n);
      IntToDecimal(n)
  }

  /** The placeholder text for `key`. */
  function Placeholder(key: string): (r: string)
    ensures |r| == |key| + 1 && r[0] == ':' && r[1..] == key
  {
    ":" + key
  }

  /** One pass of the `forEach` body: the url is rewritten only when it contains the
      placeholder; a value without `$` then takes the place of its first occurrence. */
  function Step(url: string, key: string, value: ParamValue): (r: string)
    ensures !Includes(url, Placeholder(key)) ==> r == url
    ensures Includes(url, Placeholder(key)) && '$' !in ParamString(value) ==>
      var i := IndexOf(url, Placeholder(key)).value;
      i + |key| + 1 <= |url| && url[i..i + |key| + 1] == Placeholder(key) &&
      (forall j :: 0 <= j < i ==> !OccursAt(url, Placeholder(key), j)) &&
      r == url[..i] + ParamString(value) + url[i + |key| + 1..]
  {
    var pat := Placeholder(key);
    if Includes(url, pat) then
      var i := IndexOf(url, pat).value;
      SubstitutePlainIf(ParamString(value), pat, url[..i], url[i + |pat|..]);
      ReplaceFirst(url, pat, ParamString(value))
    else url
  }

  lemma SubstitutePlainIf(t: string, matched: string, before: string, after: string)
    ensures '$' !in t ==> Substitute(t, matched, before, after) == t
  {
    if '$' !in t {
      SubstitutePlain(t, matched, before, after);
    }
  }

  /** The url after every entry has been applied, each to the url the earlier ones left. */
  function ApplyParams(url: string, entries: Params): string
    decreases |entries|
  {
    if entries == [] then url
    else ApplyParams(Step(url, entries[0].0, entries[0].1), entries[1..])
  }

  /** `buildUrl(path, params)`; `None` is an absent `params` object. */
  method BuildUrl(path: string, params: Option<Params>) returns (url: string)
    ensures params.None? ==> url == path
    ensures params.Some? ==> url == ApplyParams(path, params.value)
  {
    url := path;
    if params.Some? {
      var entries := params.value;
      var i := 0;
      while i < |entries|
        invariant 0 <= i <= |entries|
        invariant ApplyParams(url, entries[i..]) == ApplyParams(path, entries)
      {
        assert entries[i..][1..] == entries[i + 1..];
        var (key, value) := entries[i];
        if Includes(url, Placeholder(key)) {
          url := ReplaceFirst(url, Placeholder(key), ParamString(value));
        }
        i := i + 1;
      }
    }
  }

  /** Entries are applied in order: the url after `a + b` is the url after `a`, then `b`. */
  lemma {:induction false} ApplyParamsAppend(url: string, a: Params, b: Params)
    ensures ApplyParams(url, a + b) == ApplyParams(ApplyParams(url, a), b)
    decreases |a|
  {
    if a != [] {
      assert (a + b)[1..] == a[1..] + b;
      ApplyParamsAppend(Step(url, a[0].0, a[0].1), a[1..], b);
    } else {
      assert a + b == b;
    }
  }

  /** A path that contains none of the keys' placeholders comes back unchanged. */
  lemma {:induction false} NoPlaceholderUnchanged(path: string, entries: Params)
    requires forall k :: 0 <= k < |entries| ==> !Includes(path, Placeholder(entries[k].0))
    ensures ApplyParams(path, entries) == path
    decreases |entries|
  {
    if entries != [] {
      assert forall k :: 0 <= k < |entries| - 1 ==> entries[1..][k] == entries[k + 1];
      NoPlaceholderUnchanged(path, entries[1..]);
    }
  }

  /** A route with one `:id` placeholder and a numeric id. */
  lemma UserRouteExample()
    ensures ApplyParams("/u/:id", [("id", Num(7))]) == "/u/7"
  {
    var url := "/u/:id";
    UserRouteIndex();
    assert ParamString(Num(7)) == "7";
    assert Step(url, "id", Num(7)) == "/u/" + "7" + "";
  }

  lemma UserRouteIndex()
    ensures IndexOf("/u/:id", Placeholder("id")) == Some(3)
  {
    var url, pat := "/u/:id", Placeholder("id");
    assert OccursAt(url, pat, 3);
    assert IndexFrom(url, pat, 3) == Some(3);
    assert !OccursAt(url, pat, 2) && IndexFrom(url, pat, 2) == Some(3);
    assert !OccursAt(url, pat, 1) && IndexFrom(url, pat, 1) == Some(3);
    assert !OccursAt(url, pat, 0);
  }

  /** Only the first occurrence is rewritten, and a shorter key also matches the start of a
      longer placeholder: `:id` is found inside `:idx`. */
  lemma PrefixPlaceholderExample()
    ensures Step("/:idx/:id", "id", Str("7")) == "/7x/:id"
  {
    var url, pat := "/:idx/:id", Placeholder("id");
    assert OccursAt(url, pat, 1);
    assert !OccursAt(url, pat, 0);
    assert IndexOf(url, pat) == Some(1);
    assert Step(url, "id", Str("7")) == "/" + "7" + "x/:id";
  }
}
