/** Two ways to read a JSON request body: flattening it into dotted keys and walking a dotted path.

    Numbers carry the text they are formatted to.
 */
module JsonPaths {
  import opened Text
  import opened Wrappers

  datatype Json =
    | Null
    | Str(s: string)
    | Bool(b: bool)
    | Num(text: string)
    | Arr(items: seq<Json>)
    | Obj(fields: map<string, Json>)

  function FormatBool(b: bool): string {
    if b then "true" else "false"
  }

  function NonBlank(s: string): Option<string> {
    if Trim(s) == "" then None else Some(Trim(s))
  }

  /** How the permission-decision context renders a leaf. */
  function StringifyDecision(v: Json): Option<string> {
    match v
    case Str(s) => NonBlank(s)
    case Bool(b) => Some(FormatBool(b))
    case Num(text) => NonBlank(text)
    case _ => None
  }

  /** How the authorization middleware renders what a path leads to; decoded JSON holds no other number types. */
  function StringifyContext(v: Json): Option<string> {
    match v
    case Null => None
    case Str(s) => if Trim(s) != "" then Some(Trim(s)) else None
    case Bool(b) => Some(FormatBool(b))
    case Num(text) => if Trim(text) != "" then Some(Trim(text)) else None
    case Arr(_) => None
    case Obj(_) => None
  }

  /** What a leaf renders to, in both places: trimmed text that is not blank, `true` or `false`, the digits of a number;
      nothing else renders. */
  lemma RendersTo(v: Json, s: string)
    ensures StringifyContext(v) == StringifyDecision(v)
    ensures StringifyContext(v) == Some(s) <==>
            || (v.Str? && s == Trim(v.s) && s != "")
            || (v.Bool? && ((v.b && s == "true") || (!v.b && s == "false")))
            || (v.Num? && s == Trim(v.text) && s != "")
  {
    hide Trim;
  }

  // ---------------------------------------------------------------------------------------------
  // Path lookup

  /** Follows the parts from a value: each part is trimmed, and a blank part, a missing key or a non-object ends the
      walk. */
  function Walk(current: Json, parts: seq<string>): Option<Json>
    decreases |parts|
  {
    if parts == [] then Some(current)
    else
      var part := Trim(parts[0]);
      if part == "" || !current.Obj? || part !in current.fields then None
      else Walk(current.fields[part], parts[1..])
  }

  function LookupSpec(input: map<string, Json>, path: string): Option<Json> {
    if input == map[] then None else Walk(Obj(input), Split(path, '.'))
  }

  method Lookup(input: map<string, Json>, path: string) returns (found: Option<Json>)
    ensures found == LookupSpec(input, path)
  {
    if input == map[] {
      return None;
    }
    var parts := Split(path, '.');
    var current := Obj(input);
    for i := 0 to |parts|
      invariant Walk(Obj(input), parts) == Walk(current, parts[i..])
    {
      var part := Trim(parts[i]);
      assert parts[i..][1..] == parts[i + 1..];
      if part == "" {
        return None;
      }
      if !current.Obj? {
        return None;
      }
      if part !in current.fields {
        return None;
      }
      current := current.fields[part];
    }
    return Some(current);
  }

  // ---------------------------------------------------------------------------------------------
  // Flattening

  /** Every object key is nonempty, trimmed and free of dots, all the way down. */
  ghost predicate CleanKeys(v: Json) {
    v.Obj? ==> forall k :: k in v.fields ==> CleanKey(k) && CleanKeys(v.fields[k])
  }

  predicate CleanKey(k: string) {
    k != "" && Trimmed(k) && '.' !in k
  }

  /** The rendered leaf that exactly these keys lead to. */
  function Leaf(v: Json, parts: seq<string>): Option<string>
    decreases |parts|
  {
    if parts == [] then StringifyDecision(v)
    else if !v.Obj? || parts[0] !in v.fields then None
    else Leaf(v.fields[parts[0]], parts[1..])
  }

  function FullKey(prefix: string, key: string): string {
    if prefix == "" then key else prefix + "." + key
  }

  datatype Below = Outside | Inside(parts: seq<string>)

  /** The keys a flat key names below the prefix. */
  function PartsBelow(prefix: string, p: string): Below {
    if prefix == "" then Inside(Split(p, '.'))
    else if prefix + "." <= p then Inside(Split(p[|prefix| + 1..], '.'))
    else Outside
  }

  /** What flattening `v` under the prefix writes at `p`, if anything. */
  function FlatAt(prefix: string, v: Json, p: string): Option<string> {
    match PartsBelow(prefix, p)
    case Outside => None
    case Inside(parts) => Leaf(v, parts)
  }

  function Override(first: Option<string>, second: Option<string>): Option<string> {
    if first.Some? then first else second
  }

  lemma PrefixOfConcat(a: string, b: string, p: string)
    ensures a + b <= p <==> a <= p && b <= p[|a|..]
  {
    if a <= p && b <= p[|a|..] {
      assert p == a + p[|a|..];
    }
    if a + b <= p {
      assert a <= p;
      assert p[|a|..][..|b|] == (a + b)[|a|..];
    }
  }

  /** Keys below `FullKey(prefix, key)` are the keys below the prefix that begin with `key` and go on. */
  lemma BelowKey(prefix: string, key: string, p: string)
    requires CleanKey(key)
    ensures PartsBelow(prefix, p).Inside? && PartsBelow(prefix, p).parts[0] == key
              && |PartsBelow(prefix, p).parts| > 1 <==>
            PartsBelow(FullKey(prefix, key), p).Inside?
    ensures PartsBelow(FullKey(prefix, key), p).Inside? ==>
              PartsBelow(prefix, p).parts == [key] + PartsBelow(FullKey(prefix, key), p).parts
  {
    hide Split, Trimmed;
    var full := FullKey(prefix, key);
    if prefix == "" {
      HeadPart(key, p);
    } else {
      PrefixOfConcat(prefix + ".", key + ".", p);
      assert full + "." == prefix + "." + (key + ".");
      if prefix + "." <= p {
        HeadPart(key, p[|prefix| + 1..]);
        if key + "." <= p[|prefix| + 1..] {
          assert p[|prefix| + 1..][|key| + 1..] == p[|full| + 1..];
        }
      }
    }
  }

  /** A string whose first dotted part is `key`, with more to come, is `key`, a dot and the rest. */
  lemma HeadPart(key: string, s: string)
    requires CleanKey(key)
    ensures Split(s, '.')[0] == key && |Split(s, '.')| > 1 <==> key + "." <= s
    ensures key + "." <= s ==> Split(s, '.') == [key] + Split(s[|key| + 1..], '.')
  {
    if key + "." <= s {
      assert s == key + ['.'] + s[|key| + 1..];
      SplitHead(key, s[|key| + 1..], '.');
    }
    var parts := Split(s, '.');
    if parts[0] == key && |parts| > 1 {
      JoinSplit(s, '.');
      assert s == key + ['.'] + Join(parts[1..], '.');
    }
  }

  lemma OnlyKey(prefix: string, key: string, p: string)
    requires CleanKey(key)
    ensures p == FullKey(prefix, key) <==> PartsBelow(prefix, p) == Inside([key])
  {
    if PartsBelow(prefix, p) == Inside([key]) {
      if prefix == "" {
        JoinSplit(p, '.');
      } else {
        JoinSplit(p[|prefix| + 1..], '.');
        assert p == prefix + "." + p[|prefix| + 1..];
      }
    }
    if p == FullKey(prefix, key) && prefix != "" {
      assert p[|prefix| + 1..] == key;
    }
  }

  /** What one field contributes, wherever it is visited in the iteration. */
  lemma FieldContributes(prefix: string, fields: map<string, Json>, key: string, p: string)
    requires CleanKeys(Obj(fields)) && key in fields
    ensures var child := fields[key];
            var inField := PartsBelow(prefix, p).Inside? && PartsBelow(prefix, p).parts[0] == key;
            if child.Obj? then
              FlatAt(FullKey(prefix, key), child, p) == if inField then FlatAt(prefix, Obj(fields), p) else None
            else
              (if p == FullKey(prefix, key) then StringifyDecision(child) else None) ==
              if inField then FlatAt(prefix, Obj(fields), p) else None
  {
    BelowKey(prefix, key, p);
    OnlyKey(prefix, key, p);
    var child := fields[key];
    var below := PartsBelow(prefix, p);
    if below.Inside? && below.parts[0] == key {
      assert Leaf(Obj(fields), below.parts) == Leaf(child, below.parts[1..]);
      if |below.parts| == 1 {
        assert below.parts == [key];
      }
    }
  }

  /** The visited part of what is below a prefix. */
  ghost predicate Covered(prefix: string, done: set<string>, p: string) {
    PartsBelow(prefix, p).Inside? && PartsBelow(prefix, p).parts[0] in done
  }

  ghost function SoFar(prefix: string, input: Json, done: set<string>, out: map<string, string>, p: string)
    : Option<string>
  {
    Override(if Covered(prefix, done, p) then FlatAt(prefix, input, p) else None, Get(out, p))
  }

  /** Flattening visits the fields in any order and writes into a shared map; on clean keys the outcome does not depend
      on that order. (Keys that collide after trimming, or that contain dots, may make it depend.) */
  method Flatten(prefix: string, input: Json, out: map<string, string>) returns (result: map<string, string>)
    requires input.Obj?
    ensures CleanKeys(input) ==> forall p :: Get(result, p) == Override(FlatAt(prefix, input, p), Get(out, p))
    decreases input
  {
    hide Trim, FullKey, PartsBelow, FlatAt, StringifyDecision;
    result := out;
    var todo := input.fields.Keys;
    ghost var done: set<string> := {};
    while todo != {}
      invariant done + todo == input.fields.Keys && done !! todo
      invariant CleanKeys(input) ==> forall p :: Get(result, p) == SoFar(prefix, input, done, out, p)
    {
      var key :| key in todo;
      ghost var before := result;
      var fullKey := FullKey(prefix, Trim(key));
      var child := input.fields[key];
      if Trim(key) != "" {
        if child.Obj? {
          result := Flatten(fullKey, child, result);
        } else if StringifyDecision(child).Some? {
          result := result[fullKey := StringifyDecision(child).value];
        }
      }
      forall p | CleanKeys(input) ensures Get(result, p) == SoFar(prefix, input, done + {key}, out, p) {
        FieldContributes(prefix, input.fields, key, p);
        assert Get(before, p) == SoFar(prefix, input, done, out, p);
      }
      todo, done := todo - {key}, done + {key};
    }
    forall p ensures Covered(prefix, input.fields.Keys, p) || FlatAt(prefix, input, p) == None {
      NothingElsewhere(prefix, input, p);
    }
  }

  lemma NothingElsewhere(prefix: string, input: Json, p: string)
    requires input.Obj?
    ensures Covered(prefix, input.fields.Keys, p) || FlatAt(prefix, input, p) == None
  {
    hide Trim, Split;
  }

  // ---------------------------------------------------------------------------------------------
  // The two agree

  /** Every part of the path is already trimmed. */
  predicate Canonical(path: string) {
    AllTrimmed(Split(path, '.'))
  }

  predicate AllTrimmed(parts: seq<string>) {
    forall p :: p in parts ==> Trimmed(p)
  }

  lemma AllTrimmedUnfolds(parts: seq<string>)
    requires parts != []
    ensures AllTrimmed(parts) <==> Trimmed(parts[0]) && AllTrimmed(parts[1..])
  {
    assert parts == [parts[0]] + parts[1..];
  }

  lemma {:induction false} LeafIffWalk(v: Json, parts: seq<string>, s: string)
    requires CleanKeys(v)
    ensures Leaf(v, parts) == Some(s) <==>
            AllTrimmed(parts) && Walk(v, parts).Some? && StringifyContext(Walk(v, parts).value) == Some(s)
    decreases |parts|
  {
    hide AllTrimmed, Trim, Trimmed, Leaf, Walk;
    if parts == [] {
      NoParts(v);
    } else {
      AllTrimmedUnfolds(parts);
      PartsUnfold(v, parts);
      if v.Obj? && parts[0] in v.fields {
        assert CleanKey(parts[0]);
        LeafIffWalk(v.fields[parts[0]], parts[1..], s);
      }
    }
  }

  lemma NoParts(v: Json)
    ensures AllTrimmed([]) && Leaf(v, []) == StringifyDecision(v) == StringifyContext(v) && Walk(v, []) == Some(v)
  {
  }

  lemma PartsUnfold(v: Json, parts: seq<string>)
    requires parts != []
    ensures var part := Trim(parts[0]);
            Walk(v, parts) ==
            if part != "" && v.Obj? && part in v.fields then Walk(v.fields[part], parts[1..]) else None
    ensures Leaf(v, parts) == if v.Obj? && parts[0] in v.fields then Leaf(v.fields[parts[0]], parts[1..]) else None
  {
    hide Trim;
  }

  /** Flattening agrees with path lookup: on clean keys the flat map sends a path to a string exactly when the path is
      written without stray blanks and looking it up finds a value that renders to that string. */
  lemma FlatIffLookup(input: map<string, Json>, path: string, s: string)
    requires CleanKeys(Obj(input))
    ensures FlatAt("", Obj(input), path) == Some(s) <==>
            && Canonical(path)
            && LookupSpec(input, path).Some? && StringifyContext(LookupSpec(input, path).value) == Some(s)
  {
    LeafIffWalk(Obj(input), Split(path, '.'), s);
  }

  /** Lookup itself does not mind stray blanks: it finds the same as the canonical spelling. */
  lemma {:induction false} WalkIgnoresBlanks(v: Json, parts: seq<string>)
    ensures Walk(v, parts) == Walk(v, TrimAll(parts))
    decreases |parts|
  {
    hide Trim, Walk;
    var trimmed := TrimAll(parts);
    if parts == [] {
      assert trimmed == parts;
    } else {
      PartsUnfold(v, parts);
      PartsUnfold(v, trimmed);
      assert trimmed[1..] == TrimAll(parts[1..]);
      assert Trim(trimmed[0]) == Trim(parts[0]);
      if v.Obj? && Trim(parts[0]) in v.fields {
        WalkIgnoresBlanks(v.fields[Trim(parts[0])], parts[1..]);
      }
    }
  }

  function TrimAll(parts: seq<string>): (r: seq<string>)
    ensures |r| == |parts| && forall i :: 0 <= i < |r| ==> r[i] == Trim(parts[i])
  {
    seq(|parts|, i requires 0 <= i < |parts| => Trim(parts[i]))
  }

  /** The whole pipeline of the decision context against the middleware's lookup. */
  method FlattenRequest(input: map<string, Json>) returns (flat: map<string, string>)
    ensures CleanKeys(Obj(input)) ==> forall path, s :: Get(flat, path) == Some(s) <==>
              && Canonical(path)
              && LookupSpec(input, path).Some? && StringifyContext(LookupSpec(input, path).value) == Some(s)
  {
    flat := Flatten("", Obj(input), map[]);
    forall path, s | CleanKeys(Obj(input)) ensures Get(flat, path) == Some(s) <==>
              && Canonical(path)
              && LookupSpec(input, path).Some? && StringifyContext(LookupSpec(input, path).value) == Some(s)
    {
      FlatIffLookup(input, path, s);
    }
  }
}
