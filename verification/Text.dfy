/** The string operations the services share: trimming, splitting, joining and lower-casing.

    Strings are sequences of characters. Lower-casing is modelled for ASCII letters.
 */
module Text {

  /** Go's `unicode.IsSpace`. */
  predicate IsSpace(c: char) {
    || '\t' <= c <= '\r' || c == ' ' || c == '\U{85}' || c == '\U{A0}' || c == '\U{1680}'
    || '\U{2000}' <= c <= '\U{200A}' || c == '\U{2028}' || c == '\U{2029}' || c == '\U{202F}' || c == '\U{205F}'
    || c == '\U{3000}'
  }

  predicate Trimmed(s: string) {
    s == "" || (!IsSpace(s[0]) && !IsSpace(s[|s| - 1]))
  }

  function TrimLeft(s: string): (r: string)
    ensures r != "" ==> !IsSpace(r[0])
    ensures s != "" && !IsSpace(s[0]) ==> r == s
    ensures |r| <= |s| && r == s[|s| - |r|..]
  {
    if s != "" && IsSpace(s[0]) then TrimLeft(s[1..]) else s
  }

  function TrimRight(s: string): (r: string)
    ensures r != "" ==> !IsSpace(r[|r| - 1])
    ensures s != "" && !IsSpace(s[|s| - 1]) ==> r == s
    ensures r <= s
  {
    if s != "" && IsSpace(s[|s| - 1]) then TrimRight(s[..|s| - 1]) else s
  }

  /** `strings.TrimSpace`. */
  function Trim(s: string): (r: string)
    ensures Trimmed(r)
    ensures Trimmed(s) ==> r == s
    ensures |r| <= |s|
    ensures forall c :: c in r ==> c in s
  {
    TrimRight(TrimLeft(s))
  }

  predicate AllSpace(s: string) {
    forall i :: 0 <= i < |s| ==> IsSpace(s[i])
  }

  lemma {:induction false} TrimLeftSplits(s: string)
    ensures AllSpace(s[..|s| - |TrimLeft(s)|])
  {
    hide IsSpace;
    if s != "" && IsSpace(s[0]) {
      TrimLeftSplits(s[1..]);
      var n := |s| - |TrimLeft(s)|;
      assert TrimLeft(s) == TrimLeft(s[1..]);
      hide TrimLeft;
      assert s[..n] == [s[0]] + s[1..][..n - 1];
    }
  }

  lemma {:induction false} TrimRightSplits(s: string)
    ensures AllSpace(s[|TrimRight(s)|..])
  {
    hide IsSpace;
    if s != "" && IsSpace(s[|s| - 1]) {
      var n := |s| - 1;
      TrimRightSplits(s[..n]);
      var k := |TrimRight(s)|;
      assert s[k..] == s[..n][k..] + [s[n]];
    }
  }

  lemma Around(s: string, t: string, u: string)
    requires |t| <= |s| && t == s[|s| - |t|..] && u <= t
    ensures s == s[..|s| - |t|] + u + t[|u|..]
  {
    assert t == u + t[|u|..];
  }

  /** Trimming takes away spaces at both ends and nothing else. */
  lemma TrimSplits(s: string) returns (left: string, right: string)
    ensures s == left + Trim(s) + right && AllSpace(left) && AllSpace(right)
  {
    hide TrimLeft, TrimRight, IsSpace, Trimmed, AllSpace;
    var t := TrimLeft(s);
    left, right := s[..|s| - |t|], t[|TrimRight(t)|..];
    TrimLeftSplits(s);
    TrimRightSplits(t);
    Around(s, t, TrimRight(t));
  }

  lemma NothingIsTrimmed()
    ensures Trimmed("") && Trim("") == ""
  {
    hide Trim;
  }

  // ---------------------------------------------------------------------------------------------
  // Splitting and joining

  /** `strings.Split` on a one-character separator. */
  function Split(s: string, sep: char): (r: seq<string>)
    ensures r != []
    ensures forall p :: p in r ==> sep !in p
    ensures sep !in s ==> r == [s]
  {
    if s == "" then [""]
    else
      var rest := Split(s[1..], sep);
      if s[0] == sep then [""] + rest
      else
        var parts := [[s[0]] + rest[0]] + rest[1..];
        assert forall p :: p in parts ==> p == [s[0]] + rest[0] || p in rest;
        assert sep !in s ==> sep !in s[1..];
        assert [s[0]] + s[1..] == s;
        parts
  }

  function Join(parts: seq<string>, sep: char): string {
    if |parts| == 0 then "" else if |parts| == 1 then parts[0]
    else parts[0] + [sep] + Join(parts[1..], sep)
  }

  lemma {:induction false} SplitHead(head: string, rest: string, sep: char)
    requires sep !in head
    ensures Split(head + [sep] + rest, sep) == [head] + Split(rest, sep)
  {
    var s := head + [sep] + rest;
    if head == "" {
      assert s[1..] == rest;
    } else {
      assert s[1..] == head[1..] + [sep] + rest;
      SplitHead(head[1..], rest, sep);
      assert [head[0]] + head[1..] == head;
    }
  }

  /** Joining and splitting undo each other on parts without the separator. */
  lemma {:induction false} SplitJoin(parts: seq<string>, sep: char)
    requires parts != [] && forall p :: p in parts ==> sep !in p
    ensures Split(Join(parts, sep), sep) == parts
    decreases |parts|
  {
    if |parts| > 1 {
      assert parts[0] in parts;
      SplitJoin(parts[1..], sep);
      SplitHead(parts[0], Join(parts[1..], sep), sep);
    }
  }

  lemma {:induction false} JoinSplit(s: string, sep: char)
    ensures Join(Split(s, sep), sep) == s
  {
    if s != "" {
      JoinSplit(s[1..], sep);
      var rest := Split(s[1..], sep);
      if s[0] == sep {
        assert ([""] + rest)[1..] == rest;
      } else {
        JoinLonger(s[0], rest, sep);
      }
    }
  }

  lemma JoinLonger(c: char, rest: seq<string>, sep: char)
    requires rest != []
    ensures Join([[c] + rest[0]] + rest[1..], sep) == [c] + Join(rest, sep)
  {
    var parts := [[c] + rest[0]] + rest[1..];
    assert parts[1..] == rest[1..];
    if |rest| > 1 {
      assert Join(parts, sep) == [c] + (rest[0] + [sep] + Join(rest[1..], sep));
    }
  }

  datatype Cut = Whole | Halves(before: string, after: string)

  /** The split at the first separator that `strings.SplitN` makes. */
  function SplitOnce(s: string, sep: char): (r: Cut)
    ensures r.Whole? <==> sep !in s
    ensures r.Halves? ==> s == r.before + [sep] + r.after && sep !in r.before
  {
    if s == "" then Whole
    else if s[0] == sep then Halves("", s[1..])
    else match SplitOnce(s[1..], sep)
         case Whole => Whole
         case Halves(before, after) => Halves([s[0]] + before, after)
  }

  /** The first separator splits what was joined with it, if the first half has none. */
  lemma {:induction false} SplitOnceAt(before: string, after: string, sep: char)
    requires sep !in before
    ensures SplitOnce(before + [sep] + after, sep) == Halves(before, after)
  {
    hide SplitOnce;
    var s := before + [sep] + after;
    SplitOnceUnfold(s, sep);
    if before == "" {
      assert s[1..] == after;
    } else {
      assert s[1..] == before[1..] + [sep] + after;
      SplitOnceAt(before[1..], after, sep);
      assert [before[0]] + before[1..] == before;
    }
  }

  lemma SplitOnceUnfold(s: string, sep: char)
    requires s != ""
    ensures s[0] == sep ==> SplitOnce(s, sep) == Halves("", s[1..])
    ensures s[0] != sep && SplitOnce(s[1..], sep).Halves? ==>
              SplitOnce(s, sep) == Halves([s[0]] + SplitOnce(s[1..], sep).before, SplitOnce(s[1..], sep).after)
  {
  }

  // ---------------------------------------------------------------------------------------------
  // Lower case

  function LowerChar(c: char): (r: char)
    ensures IsSpace(r) <==> IsSpace(c)
    ensures c != r ==> 'A' <= c <= 'Z' && 'a' <= r <= 'z'
    ensures 'A' <= c <= 'Z' ==> r as int - 'a' as int == c as int - 'A' as int
    ensures LowerCaseChar(r)
  {
    if 'A' <= c <= 'Z' then (c as int + 32) as char else c
  }

  predicate LowerCaseChar(c: char) {
    !('A' <= c <= 'Z')
  }

  predicate LowerCase(s: string) {
    forall i :: 0 <= i < |s| ==> LowerCaseChar(s[i])
  }

  /** `strings.ToLower` on ASCII. */
  function ToLower(s: string): (r: string)
    ensures |r| == |s| && LowerCase(r)
    ensures forall i :: 0 <= i < |s| ==> r[i] == LowerChar(s[i])
    ensures LowerCase(s) ==> r == s
    ensures Trimmed(s) ==> Trimmed(r)
  {
    seq(|s|, i requires 0 <= i < |s| => LowerChar(s[i]))
  }
}
