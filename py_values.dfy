/**
 * The Python values the services handle: query parameters and document
 * fields (None, bool, int, str and list of str), dicts as insertion-ordered
 * lists of items, Python's truth test, `str.split(", ")` and the MongoDB
 * filter conditions the query builders emit.
 */
module PyValues {
  import opened Wrappers

  datatype Value = Null | Bool(b: bool) | Int(i: int) | Str(s: string) | StrList(items: seq<string>)

  /** The Python exceptions the modelled code raises. */
  datatype PyError =
    | KeyError(key: string)   // a dict lookup of a missing key
    | TypeError               // e.g. a call with a missing argument, or subscripting a coroutine
    | NameError               // an unbound local or undefined name
    | ValidationError         // a pydantic model rejected its input
    | DecodeError             // a frame that is not a JSON object
    | AttributeError(name: string) // an attribute the object lacks, e.g. a method read off an un-awaited coroutine

  /** Python's truth test: None, False, 0, "" and [] are falsy. */
  predicate Truthy(v: Value) {
    match v
    case Null => false
    case Bool(b) => b
    case Int(i) => i != 0
    case Str(s) => s != ""
    case StrList(items) => items != []
  }

  /** A dict, as its items in insertion order. */
  type Dict<V> = seq<(string, V)>

  function Keys<V>(d: Dict<V>): seq<string> {
    if d == [] then [] else [d[0].0] + Keys(d[1..])
  }

  predicate HasKey<V>(d: Dict<V>, k: string) {
    k in Keys(d)
  }

  /** What a dict literal or any dict guarantees: no key twice. */
  predicate DistinctKeys<V>(d: Dict<V>) {
    forall i, j :: 0 <= i < j < |d| ==> d[i].0 != d[j].0
  }

  /** `d.get(k)`: the value stored under k, if any. */
  function Get<V>(d: Dict<V>, k: string): (r: Option<V>)
    ensures r.Some? <==> HasKey(d, k)
    ensures r.Some? ==> (k, r.value) in d
  {
    if d == [] then None
    else if d[0].0 == k then Some(d[0].1)
    else Get(d[1..], k)
  }

  /** `d.pop(k, None)` as far as the dict is concerned: every other item, in order. */
  function Remove<V>(d: Dict<V>, k: string): (r: Dict<V>)
    ensures !HasKey(r, k)
    ensures forall i :: 0 <= i < |r| ==> r[i] in d && r[i].0 != k
    ensures forall i :: 0 <= i < |d| && d[i].0 != k ==> d[i] in r
    ensures forall k' :: k' != k ==> Get(r, k') == Get(d, k')
  {
    if d == [] then []
    else if d[0].0 == k then Remove(d[1..], k)
    else [d[0]] + Remove(d[1..], k)
  }

  /** `d[k] = v`: an existing key keeps its place and takes the new value; a new key goes last. */
  function Put<V>(d: Dict<V>, k: string, v: V): (r: Dict<V>)
    ensures Get(r, k) == Some(v)
    ensures forall k' :: k' != k ==> Get(r, k') == Get(d, k')
    ensures HasKey(d, k) ==> Keys(r) == Keys(d)
    ensures !HasKey(d, k) ==> r == d + [(k, v)]
  {
    if d == [] then [(k, v)]
    else if d[0].0 == k then [(k, v)] + d[1..]
    else [d[0]] + Put(d[1..], k, v)
  }

  /** Keys of a dict with one more item. */
  lemma {:induction false} KeysSnoc<V>(d: Dict<V>, kv: (string, V))
    ensures Keys(d + [kv]) == Keys(d) + [kv.0]
  {
    if d != [] {
      assert (d + [kv])[1..] == d[1..] + [kv];
      KeysSnoc(d[1..], kv);
    }
  }

  /** Looking a key up in a dict with one more item: the first occurrence wins. */
  lemma {:induction false} GetSnoc<V>(d: Dict<V>, kv: (string, V), k: string)
    ensures Get(d + [kv], k) == (if HasKey(d, k) then Get(d, k) else if kv.0 == k then Some(kv.1) else None)
  {
    if d != [] {
      assert (d + [kv])[1..] == d[1..] + [kv];
      GetSnoc(d[1..], kv, k);
    }
  }

  /** In a dict with no key twice, the last key occurs nowhere before. */
  lemma DistinctKeysLast<V>(d: Dict<V>)
    requires d != [] && DistinctKeys(d)
    ensures !HasKey(d[..|d| - 1], d[|d| - 1].0)
  {
    MissingKey(d[..|d| - 1], d[|d| - 1].0);
  }

  /** A key no item carries is not a key of the dict. */
  lemma {:induction false} MissingKey<V>(d: Dict<V>, k: string)
    requires forall i :: 0 <= i < |d| ==> d[i].0 != k
    ensures !HasKey(d, k)
  {
    if d != [] {
      MissingKey(d[1..], k);
    }
  }

  /** A key is present exactly when some item carries it. */
  lemma {:induction false} HasKeyIffItem<V>(d: Dict<V>, k: string)
    ensures HasKey(d, k) <==> exists i :: 0 <= i < |d| && d[i].0 == k
  {
    if d != [] {
      HasKeyIffItem(d[1..], k);
      if HasKey(d[1..], k) {
        var i :| 0 <= i < |d[1..]| && d[1..][i].0 == k;
        assert d[i + 1].0 == k;
      }
      if exists i :: 0 <= i < |d| && d[i].0 == k {
        var i :| 0 <= i < |d| && d[i].0 == k;
        if i > 0 {
          assert d[1..][i - 1].0 == k;
        }
      }
    }
  }

  /** In a dict with no key twice, the item at position j is what its key looks up. */
  lemma {:induction false} ItemIsGot<V>(d: Dict<V>, j: nat)
    requires DistinctKeys(d) && j < |d|
    ensures Get(d, d[j].0) == Some(d[j].1)
  {
    if j > 0 {
      assert d[1..][j - 1] == d[j];
      ItemIsGot(d[1..], j - 1);
    }
  }

  /**
   * The dict a `for key, value in d.items(): if ...: out[key] = ...` loop
   * builds: each item for which f gives an entry is written into the
   * result, in item order.
   */
  function BuildDict<V>(d: Dict<Value>, f: (string, Value) -> Option<V>): Dict<V>
    decreases |d|
  {
    if d == [] then []
    else
      var q := BuildDict(d[..|d| - 1], f);
      var kv := d[|d| - 1];
      match f(kv.0, kv.1)
      case None => q
      case Some(w) => Put(q, kv.0, w)
  }

  /** For a dict (no key twice) each key's entry comes from its own item alone, whatever the order of the items. */
  lemma {:induction false} BuildDictEntry<V>(d: Dict<Value>, f: (string, Value) -> Option<V>, k: string)
    requires DistinctKeys(d)
    ensures Get(BuildDict(d, f), k) == (match Get(d, k) case None => None case Some(v) => f(k, v))
    decreases |d|
  {
    if d != [] {
      var init := d[..|d| - 1];
      var last := d[|d| - 1];
      assert d == init + [last];
      BuildDictEntry(init, f, k);
      GetSnoc(init, last, k);
      if last.0 == k {
        DistinctKeysLast(d);
      }
    }
  }

  /** One more loop iteration: the item at position i is processed after the earlier ones. */
  lemma BuildDictStep<V>(d: Dict<Value>, f: (string, Value) -> Option<V>, i: nat)
    requires i < |d|
    ensures BuildDict(d[..i + 1], f) == (match f(d[i].0, d[i].1) case None => BuildDict(d[..i], f) case Some(w) => Put(BuildDict(d[..i], f), d[i].0, w))
  {
    assert d[..i + 1][..i] == d[..i];
  }

  // ---------------------------------------------------------------------
  // str.split(", ") and its inverse ", ".join(...)
  // ---------------------------------------------------------------------

  /** Whether the separator ", " occurs in s. */
  predicate HasSeparator(s: string) {
    exists i :: 0 <= i < |s| - 1 && s[i] == ',' && s[i + 1] == ' '
  }

  /**
   * Python's `s.split(", ")`: the pieces between the non-overlapping
   * occurrences of ", ", scanning left to right; always at least one piece
   * (`"".split(", ") == [""]`).
   */
  function Split(s: string): (r: seq<string>)
    ensures |r| >= 1
    decreases |s|
  {
    if |s| < 2 then [s]
    else if s[0] == ',' && s[1] == ' ' then [""] + Split(s[2..])
    else
      var rest := Split(s[1..]);
      [[s[0]] + rest[0]] + rest[1..]
  }

  /** Python's `", ".join(pieces)`. */
  function Join(pieces: seq<string>): string {
    if |pieces| == 0 then ""
    else if |pieces| == 1 then pieces[0]
    else pieces[0] + ", " + Join(pieces[1..])
  }

  lemma JoinConsHead(c: char, first: string, rest: seq<string>)
    ensures Join([[c] + first] + rest) == [c] + Join([first] + rest)
  {
    var q, p := [[c] + first] + rest, [first] + rest;
    if rest == [] {
      assert q == [[c] + first] && p == [first];
    } else {
      assert q[0] == [c] + first && q[1..] == rest;
      assert p[0] == first && p[1..] == rest;
      assert ([c] + first) + ", " == [c] + (first + ", ");
    }
  }

  /** Joining the pieces of a split gives back the original string. */
  lemma {:induction false} JoinSplit(s: string)
    ensures Join(Split(s)) == s
    decreases |s|
  {
    if |s| < 2 {
    } else if s[0] == ',' && s[1] == ' ' {
      JoinSplit(s[2..]);
      var r := [""] + Split(s[2..]);
      assert r[1..] == Split(s[2..]);
      assert s == ", " + s[2..];
    } else {
      var rest := Split(s[1..]);
      assert Split(s) == [[s[0]] + rest[0]] + rest[1..];
      JoinSplit(s[1..]);
      assert rest == [rest[0]] + rest[1..];
      JoinConsHead(s[0], rest[0], rest[1..]);
      assert s == [s[0]] + s[1..];
    }
  }

  /** The first piece of a split is empty or starts with the string's first character. */
  lemma SplitFirstPieceStart(t: string)
    ensures Split(t)[0] == [] || (|t| > 0 && Split(t)[0][0] == t[0])
  {
  }

  /** No piece of a split contains the separator. */
  lemma {:induction false} SplitPiecesHaveNoSeparator(s: string)
    ensures forall p :: p in Split(s) ==> !HasSeparator(p)
    decreases |s|
  {
    if |s| < 2 {
    } else if s[0] == ',' && s[1] == ' ' {
      SplitPiecesHaveNoSeparator(s[2..]);
    } else {
      SplitPiecesHaveNoSeparator(s[1..]);
      var rest := Split(s[1..]);
      var head := [s[0]] + rest[0];
      assert !HasSeparator(rest[0]);
      SplitFirstPieceStart(s[1..]);
      forall i | 0 <= i < |head| - 1
        ensures !(head[i] == ',' && head[i + 1] == ' ')
      {
        if i > 0 {
          assert head[i] == rest[0][i - 1] && head[i + 1] == rest[0][i];
        }
      }
    }
  }

  // ---------------------------------------------------------------------
  // MongoDB filter conditions
  // ---------------------------------------------------------------------

  /**
   * One entry of a MongoDB filter: a plain value, `{"$regex": v, "$options": o}`,
   * `{"$lte": v}`, `{"$gte": v}` or `{"$in": v}`.
   */
  datatype Cond = Equals(v: Value) | Regex(pattern: Value, options: string) | Lte(bound: Value) | Gte(bound: Value) | In(choices: Value)

  /**
   * The `$in` condition both search builders use: a string is split on ", ",
   * anything else (a list) is used as it is.
   */
  function InCond(v: Value): (c: Cond)
    ensures c.In?
    ensures v.Str? ==> c.choices.StrList? && Join(c.choices.items) == v.s
    ensures v.Str? ==> forall p :: p in c.choices.items ==> !HasSeparator(p)
    ensures !v.Str? ==> c.choices == v
  {
    match v
    case Str(s) =>
      JoinSplit(s);
      SplitPiecesHaveNoSeparator(s);
      In(StrList(Split(s)))
    case _ => In(v)
  }

  /**
   * The result update_project and update_user derive from an update_one:
   * None when no document matched the id (a 404), otherwise the number of
   * modified documents.
   */
  function UpdateResult(matched: nat, modified: nat): (r: Option<nat>)
    ensures r.None? <==> matched == 0
    ensures r.Some? ==> r.value == modified
  {
    if matched == 0 then None else Some(modified)
  }

  /** The claims of a verified access token; verifying the token itself is not part of this model. */
  type Claims = map<string, string>
}
