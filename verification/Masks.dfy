/** Permission sets packed into 63-bit masks, their base-36 text form, the decoder and the permission test. */
module Masks {
  import opened Text
  import opened Wrappers
  import opened Machine

  const WIDTH: nat := 63

  /** A mask that leaves the sign bit alone. */
  type Mask = x: int | 0 <= x < TWO63

  // ---------------------------------------------------------------------------------------------
  // Bits

  predicate Bit(x: nat, p: nat) {
    if p == 0 then x % 2 == 1 else Bit(x / 2, p - 1)
  }

  /** The bitwise `&` of two's complement words, read as unsigned. */
  function And(x: nat, y: nat): nat {
    if x == 0 || y == 0 then 0 else (x % 2) * (y % 2) + 2 * And(x / 2, y / 2)
  }

  function Unsigned(x: Int64): nat {
    if x < 0 then x + TWO64 else x
  }

  lemma {:induction false} AndPow2(x: nat, p: nat)
    ensures And(x, Pow2(p)) == if Bit(x, p) then Pow2(p) else 0
    decreases p
  {
    if p == 0 {
      assert And(x / 2, 0) == 0;
    } else {
      assert Pow2(p) / 2 == Pow2(p - 1) && Pow2(p) % 2 == 0;
      AndPow2(x / 2, p - 1);
      if x == 0 {
        ZeroHasNoBits(p);
      }
    }
  }

  lemma {:induction false} ZeroHasNoBits(p: nat)
    ensures !Bit(0, p)
  {
    if p > 0 {
      ZeroHasNoBits(p - 1);
    }
  }

  lemma {:induction false} PowBelow(p: nat, q: nat)
    requires p < q
    ensures Pow2(p) < Pow2(q)
  {
    if p + 1 < q {
      PowBelow(p, q - 1);
    }
  }

  /** Single bits never reach the sign bit of an int64. */
  lemma BitMaskInRange(p: nat)
    requires p < WIDTH
    ensures Pow2(p) < TWO63
  {
    PowBelow(p, WIDTH);
    SignBit();
  }

  // ---------------------------------------------------------------------------------------------
  // Packing a set of positions

  /** The low `n` bits of the mask that says which of the positions `from`, `from + 1`, ... are in the set. */
  function PackBits(positions: set<nat>, from: nat, n: nat): (r: nat)
    ensures r < Pow2(n)
    decreases n
  {
    if n == 0 then 0
    else (if from in positions then 1 else 0) + 2 * PackBits(positions, from + 1, n - 1)
  }

  /** The first `count` ranges of a set. */
  function Pack(positions: set<nat>, count: nat): (r: seq<Mask>)
    ensures |r| == count
    ensures forall i :: 0 <= i < count ==> r[i] == PackBits(positions, WIDTH * i, WIDTH)
  {
    SignBit();
    assert Pow2(WIDTH) == TWO63;
    seq(count, i requires 0 <= i < count => PackBits(positions, WIDTH * i, WIDTH))
  }

  lemma {:induction false} PackedBit(positions: set<nat>, from: nat, n: nat, p: nat)
    requires p < n
    ensures Bit(PackBits(positions, from, n), p) <==> from + p in positions
    decreases n
  {
    if p > 0 {
      PackedBit(positions, from + 1, n - 1, p - 1);
      assert PackBits(positions, from, n) / 2 == PackBits(positions, from + 1, n - 1);
    }
  }

  // ---------------------------------------------------------------------------------------------
  // The permission test

  type Permissions = map<string, seq<Int64>>

  predicate HasPermission(perms: Permissions, service: string, bit: int) {
    var key := ToLower(Trim(service));
    if bit < 0 || key !in perms || perms[key] == [] then false
    else
      var rangeIndex, position := bit / WIDTH, bit % WIDTH;
      rangeIndex < |perms[key]| && And(Unsigned(perms[key][rangeIndex]), Pow2(position)) == Pow2(position)
  }

  /** A permission is held exactly if its bit is set in the range its number falls into. */
  lemma HasPermissionIff(perms: Permissions, service: string, bit: int)
    ensures HasPermission(perms, service, bit) <==>
            && bit >= 0
            && var key := ToLower(Trim(service));
               key in perms && bit / WIDTH < |perms[key]| && Bit(Unsigned(perms[key][bit / WIDTH]), bit % WIDTH)
  {
    hide ToLower, Trim, And, Bit, Pow2;
    var key := ToLower(Trim(service));
    if bit >= 0 && key in perms && bit / WIDTH < |perms[key]| {
      AndPow2(Unsigned(perms[key][bit / WIDTH]), bit % WIDTH);
    }
  }

  /** The range and the position determine the permission number. */
  lemma SplitInjective(a: nat, b: nat)
    requires a / WIDTH == b / WIDTH && a % WIDTH == b % WIDTH
    ensures a == b
  {
  }

  lemma PackedMeansSet(positions: set<nat>, count: nat, bit: nat)
    requires forall p :: p in positions ==> p < WIDTH * count
    ensures bit / WIDTH < count ==>
              (And(Pack(positions, count)[bit / WIDTH], Pow2(bit % WIDTH)) == Pow2(bit % WIDTH) <==> bit in positions)
    ensures bit / WIDTH >= count ==> bit !in positions
  {
    hide Pow2, And, Bit, PackBits;
    var i, p := bit / WIDTH, bit % WIDTH;
    assert WIDTH * i + p == bit;
    if i < count {
      AndPow2(Pack(positions, count)[i], p);
      PackedBit(positions, WIDTH * i, WIDTH, p);
    } else {
      assert bit >= WIDTH * count;
    }
  }

  // ---------------------------------------------------------------------------------------------
  // Base 36

  function DigitValue(c: char): Option<nat> {
    if '0' <= c <= '9' then Some(c as int - '0' as int)
    else if 'a' <= c <= 'z' then Some(c as int - 'a' as int + 10)
    else if 'A' <= c <= 'Z' then Some(c as int - 'A' as int + 10)
    else None
  }

  function DigitChar(d: nat): (c: char)
    requires d < 36
    ensures DigitValue(c) == Some(d)
    ensures '0' <= c <= '9' || 'a' <= c <= 'z'
  {
    if d < 10 then ('0' as int + d) as char else ('a' as int + (d - 10)) as char
  }

  /** The value of a string of base-36 digits. */
  function ParseDigits(s: string): Option<nat> {
    if s == "" then Some(0)
    else
      match (ParseDigits(s[..|s| - 1]), DigitValue(s[|s| - 1]))
      case (Some(high), Some(d)) => Some(36 * high + d)
      case _ => None
  }

  /** `strconv.ParseInt(s, 36, 64)`, `None` for any of its errors. */
  function ParseInt(s: string): Option<Int64> {
    var signed := s != "" && (s[0] == '+' || s[0] == '-');
    var digits := if signed then s[1..] else s;
    if digits == "" then None
    else
      match ParseDigits(digits)
      case None => None
      case Some(v) =>
        var n: int := v;
        var x := if s[0] == '-' then -n else n;
        if -TWO63 <= x < TWO63 then Some(x) else None
  }

  function Print(n: nat): (s: string)
    ensures s != "" && forall c :: c in s ==> '0' <= c <= '9' || 'a' <= c <= 'z'
    decreases n
  {
    if n < 36 then [DigitChar(n)] else Print(n / 36) + [DigitChar(n % 36)]
  }

  lemma {:induction false} PrintParses(n: nat)
    ensures ParseDigits(Print(n)) == Some(n)
    decreases n
  {
    if n < 36 {
      assert Print(n)[..0] == "";
    } else {
      PrintParses(n / 36);
      assert Print(n)[..|Print(n)| - 1] == Print(n / 36);
    }
  }

  lemma PrintedMaskParses(n: nat)
    requires n < TWO63
    ensures ParseInt(Print(n)) == Some(n) && Trimmed(Print(n))
  {
    hide Print, ParseDigits;
    PrintParses(n);
    var s := Print(n);
    assert s[0] in s && s[|s| - 1] in s;
    assert !IsSpace(s[0]) && !IsSpace(s[|s| - 1]) && s[0] != '+' && s[0] != '-';
  }

  /** Signs and upper case are read, and what does not fit an int64 is refused. */
  lemma ParseIntReads(n: nat)
    ensures ParseInt("+" + Print(n)) == ParseInt(Print(n))
    ensures ParseInt(Print(n)) == if n < TWO63 then Some(n) else None
    ensures ParseInt("-" + Print(n)) == if n <= TWO63 then Some(-(n as int)) else None
  {
    hide Print, ParseDigits;
    PrintParses(n);
    var s := Print(n);
    assert s[0] in s && s[0] != '+' && s[0] != '-';
    assert ("+" + s)[1..] == s && ("-" + s)[1..] == s;
  }

  lemma UpperDigits(c: char)
    requires 'a' <= c <= 'z'
    ensures DigitValue((c as int - 32) as char) == DigitValue(c)
  {
  }

  // ---------------------------------------------------------------------------------------------
  // The decoder

  /** Reads the comma-separated ranges, dropping blank and invalid ones. */
  function ParseRanges(parts: seq<string>): seq<Int64> {
    if parts == [] then []
    else
      var before, last := ParseRanges(parts[..|parts| - 1]), Trim(parts[|parts| - 1]);
      if last == "" || ParseInt(last).None? then before else before + [ParseInt(last).value]
  }

  predicate ValidRange(text: string) {
    Trim(text) != "" && ParseInt(Trim(text)).Some?
  }

  /** A dropped range shifts all later ones; the ranges keep their places exactly when every one is valid. */
  lemma {:induction false} RangesKeepPlacesIff(parts: seq<string>)
    ensures |ParseRanges(parts)| <= |parts|
    ensures |ParseRanges(parts)| == |parts| <==> forall i :: 0 <= i < |parts| ==> ValidRange(parts[i])
    ensures |ParseRanges(parts)| == |parts| ==>
              forall i :: 0 <= i < |parts| ==>
                  ValidRange(parts[i]) && ParseRanges(parts)[i] == ParseInt(Trim(parts[i])).value
  {
    hide ParseInt, Trim;
    if parts != [] {
      RangesKeepPlacesIff(parts[..|parts| - 1]);
      var before, last := parts[..|parts| - 1], parts[|parts| - 1];
      assert forall i :: 0 <= i < |before| ==> parts[i] == before[i];
      assert ValidRange(last) ==> ParseRanges(parts) == ParseRanges(before) + [ParseInt(Trim(last)).value];
    }
  }

  datatype Entry = Skip | Service(key: string, ranges: seq<Int64>)

  function ParseEntry(text: string): Entry {
    var entry := Trim(text);
    match SplitOnce(entry, ':')
    case Whole => Skip
    case Halves(name, ranges) =>
      var key := ToLower(Trim(name));
      if key == "" || Trim(ranges) == "" then Skip
      else
        var parsed := ParseRanges(Split(Trim(ranges), ','));
        if parsed == [] then Skip else Service(key, parsed)
  }

  ghost predicate SomeValid(parts: seq<string>) {
    exists i :: 0 <= i < |parts| && ValidRange(parts[i])
  }

  lemma {:induction false} NoRangeIff(parts: seq<string>)
    ensures ParseRanges(parts) == [] <==> !SomeValid(parts)
  {
    hide ParseInt, Trim;
    if parts != [] {
      var before, last := parts[..|parts| - 1], parts[|parts| - 1];
      NoRangeIff(before);
      assert forall i :: 0 <= i < |before| ==> parts[i] == before[i];
      assert ParseRanges(parts) ==
             if ValidRange(last) then ParseRanges(before) + [ParseInt(Trim(last)).value] else ParseRanges(before);
    }
  }

  lemma NothingIsNoRange()
    ensures !SomeValid(Split("", ','))
  {
    hide Trim, ParseInt;
    NothingIsTrimmed();
  }

  lemma LowerIsBlankIff(s: string)
    ensures ToLower(s) == "" <==> s == ""
  {
    hide ToLower;
    assert |ToLower(s)| == |s|;
  }

  /** An entry counts exactly if it has a colon, a name before the first one and a valid range after it. */
  lemma EntryCountsIff(text: string)
    ensures ParseEntry(text).Service? <==>
            var cut := SplitOnce(Trim(text), ':');
            cut.Halves? && Trim(cut.before) != "" && SomeValid(Split(Trim(cut.after), ','))
    ensures ParseEntry(text).Service? ==> ParseEntry(text).key == ToLower(Trim(SplitOnce(Trim(text), ':').before))
  {
    hide Trim, Split, SplitOnce, ParseRanges, ToLower, SomeValid;
    var cut := SplitOnce(Trim(text), ':');
    if cut.Halves? {
      NoRangeIff(Split(Trim(cut.after), ','));
      NothingIsNoRange();
      LowerIsBlankIff(Trim(cut.before));
    }
  }

  /** Later entries for a service replace earlier ones. */
  function ParseEntries(entries: seq<string>): Permissions {
    if entries == [] then map[]
    else
      var before := ParseEntries(entries[..|entries| - 1]);
      match ParseEntry(entries[|entries| - 1])
      case Skip => before
      case Service(key, ranges) => before[key := ranges]
  }

  function DecodeSpec(raw: string): Permissions {
    if Trim(raw) == "" then map[] else ParseEntries(Split(raw, ';'))
  }

  method DecodeRanges(rangesStr: string) returns (ranges: seq<Int64>)
    ensures ranges == ParseRanges(Split(rangesStr, ','))
  {
    hide Trim, Split, ParseInt;
    var rangeStrs := Split(rangesStr, ',');
    ranges := [];
    for i := 0 to |rangeStrs|
      invariant ranges == ParseRanges(rangeStrs[..i])
    {
      var rangeStr := Trim(rangeStrs[i]);
      assert rangeStrs[..i + 1][..i] == rangeStrs[..i];
      if rangeStr == "" {
        continue;
      }
      var mask := ParseInt(rangeStr);
      if mask.None? {
        continue;
      }
      ranges := ranges + [mask.value];
    }
    assert rangeStrs[..|rangeStrs|] == rangeStrs;
  }

  method Decode(raw: string) returns (perms: Permissions)
    ensures perms == DecodeSpec(raw)
  {
    hide Trim, ToLower, Split, SplitOnce, ParseRanges;
    perms := map[];
    if Trim(raw) == "" {
      return;
    }
    var entries := Split(raw, ';');
    for i := 0 to |entries|
      invariant perms == ParseEntries(entries[..i])
    {
      assert entries[..i + 1][..i] == entries[..i];
      var entry := Trim(entries[i]);
      if entry == "" {
        continue;
      }
      var parts := SplitOnce(entry, ':');
      if parts.Whole? {
        continue;
      }
      var serviceKey := ToLower(Trim(parts.before));
      if serviceKey == "" {
        continue;
      }
      var rangesStr := Trim(parts.after);
      if rangesStr == "" {
        continue;
      }
      var ranges := DecodeRanges(rangesStr);
      if |ranges| > 0 {
        perms := perms[serviceKey := ranges];
      }
    }
    assert entries[..|entries|] == entries;
  }

  // ---------------------------------------------------------------------------------------------
  // Encoding, and the round trip

  datatype Grant = Grant(service: string, masks: seq<Mask>)

  /** A service name the text form can carry, with at least one mask, none of them using the sign bit. */
  ghost predicate Encodable(g: Grant) {
    && g.service != "" && Trimmed(g.service) && LowerCase(g.service)
    && ':' !in g.service && ';' !in g.service
    && g.masks != []
  }

  function PrintAll(masks: seq<Mask>): (r: seq<string>)
    ensures |r| == |masks|
    ensures forall i :: 0 <= i < |r| ==> r[i] == Print(masks[i])
  {
    seq(|masks|, i requires 0 <= i < |masks| => Print(masks[i]))
  }

  function EncodeGrant(g: Grant): string {
    g.service + ":" + Join(PrintAll(g.masks), ',')
  }

  function EncodeAll(gs: seq<Grant>): (r: seq<string>)
    ensures |r| == |gs|
    ensures forall i :: 0 <= i < |r| ==> r[i] == EncodeGrant(gs[i])
  {
    seq(|gs|, i requires 0 <= i < |gs| => EncodeGrant(gs[i]))
  }

  function Encode(gs: seq<Grant>): string {
    Join(EncodeAll(gs), ';')
  }

  lemma {:induction false} PrintedRangesParse(masks: seq<Mask>)
    ensures ParseRanges(PrintAll(masks)) == masks
  {
    hide Print, ParseInt, Trim, Trimmed;
    if masks != [] {
      var n := |masks| - 1;
      PrintedRangesParse(masks[..n]);
      PrintedMaskParses(masks[n]);
      assert PrintAll(masks)[..n] == PrintAll(masks[..n]);
      assert masks == masks[..n] + [masks[n]];
    }
  }

  /** Joined printed masks start and end with a digit and contain nothing but digits and commas. */
  lemma {:induction false} JoinedMasks(masks: seq<Mask>)
    requires masks != []
    ensures var s := Join(PrintAll(masks), ',');
            s != "" && Trimmed(s) && forall c :: c in s ==> c == ',' || '0' <= c <= '9' || 'a' <= c <= 'z'
    decreases |masks|
  {
    var parts := PrintAll(masks);
    assert parts[0][0] in parts[0] && parts[0][|parts[0]| - 1] in parts[0];
    if |masks| > 1 {
      JoinedMasks(masks[1..]);
      assert parts[1..] == PrintAll(masks[1..]);
    }
  }

  lemma {:induction false} PrintedHaveNoComma(masks: seq<Mask>)
    ensures forall p :: p in PrintAll(masks) ==> ',' !in p
  {
  }

  lemma GrantParses(g: Grant)
    requires Encodable(g)
    ensures ParseEntry(EncodeGrant(g)) == Service(g.service, g.masks)
  {
    hide PrintAll, Split, SplitOnce, ParseRanges, Join, Trim, ToLower, Trimmed, LowerCase, EncodeGrant;
    var ranges := Join(PrintAll(g.masks), ',');
    JoinedMasks(g.masks);
    GrantIsTrimmed(g, ranges);
    SplitOnceAt(g.service, ranges, ':');
    PrintedHaveNoComma(g.masks);
    SplitJoin(PrintAll(g.masks), ',');
    PrintedRangesParse(g.masks);
  }

  lemma GrantIsTrimmed(g: Grant, ranges: string)
    requires Encodable(g) && ranges == Join(PrintAll(g.masks), ',') && ranges != "" && Trimmed(ranges)
    ensures EncodeGrant(g) == g.service + [':'] + ranges && Trimmed(EncodeGrant(g))
  {
    hide PrintAll, Join, IsSpace, LowerCase;
    var s := g.service + [':'] + ranges;
    assert s[0] == g.service[0] && s[|s| - 1] == ranges[|ranges| - 1];
  }

  lemma GrantText(g: Grant)
    requires Encodable(g)
    ensures ';' !in EncodeGrant(g)
    ensures EncodeGrant(g) != "" && EncodeGrant(g)[0] == g.service[0]
  {
    JoinedMasks(g.masks);
  }

  ghost function Granted(gs: seq<Grant>): Permissions {
    if gs == [] then map[] else Granted(gs[..|gs| - 1])[gs[|gs| - 1].service := gs[|gs| - 1].masks]
  }

  lemma {:induction false} EntriesParse(gs: seq<Grant>)
    requires forall i :: 0 <= i < |gs| ==> Encodable(gs[i])
    ensures ParseEntries(EncodeAll(gs)) == Granted(gs)
  {
    hide EncodeGrant, ParseEntry, Encodable;
    if gs != [] {
      var n := |gs| - 1;
      EntriesParse(gs[..n]);
      GrantParses(gs[n]);
      assert EncodeAll(gs)[..n] == EncodeAll(gs[..n]);
    }
  }

  lemma {:induction false} JoinNotBlank(parts: seq<string>, sep: char)
    requires parts != [] && parts[0] != "" && !IsSpace(parts[0][0])
    ensures Trim(Join(parts, sep)) != ""
  {
    assert Join(parts, sep)[0] == parts[0][0];
    assert TrimLeft(Join(parts, sep)) == Join(parts, sep);
    NotBlank(Join(parts, sep));
  }

  lemma {:induction false} NotBlank(s: string)
    requires s != "" && !IsSpace(s[0])
    ensures TrimRight(s) != ""
    decreases |s|
  {
    if IsSpace(s[|s| - 1]) {
      NotBlank(s[..|s| - 1]);
    }
  }

  /** Decoding what was encoded gives back every service with its masks. */
  lemma RoundTrip(gs: seq<Grant>)
    requires forall i :: 0 <= i < |gs| ==> Encodable(gs[i])
    ensures DecodeSpec(Encode(gs)) == Granted(gs)
  {
    hide EncodeGrant, Split, ParseEntry, Trim;
    NothingIsTrimmed();
    if gs != [] {
      var parts := EncodeAll(gs);
      forall p | p in parts ensures ';' !in p {
        var i :| 0 <= i < |parts| && parts[i] == p;
        GrantText(gs[i]);
      }
      GrantText(gs[0]);
      JoinNotBlank(parts, ';');
      SplitJoin(parts, ';');
      EntriesParse(gs);
    }
  }

  // ---------------------------------------------------------------------------------------------
  // Masks mean sets

  /** What a service may do: permission numbers below 63 times its number of ranges. */
  datatype Policy = Policy(service: string, positions: set<nat>, count: nat)

  ghost predicate WellFormed(p: Policy) {
    && p.service != "" && Trimmed(p.service) && LowerCase(p.service) && ':' !in p.service && ';' !in p.service
    && p.count >= 1 && forall b :: b in p.positions ==> b < WIDTH * p.count
  }

  function GrantOf(p: Policy): Grant {
    Grant(p.service, Pack(p.positions, p.count))
  }

  function GrantsOf(ps: seq<Policy>): (r: seq<Grant>)
    ensures |r| == |ps|
    ensures forall i :: 0 <= i < |r| ==> r[i] == GrantOf(ps[i])
  {
    seq(|ps|, i requires 0 <= i < |ps| => GrantOf(ps[i]))
  }

  lemma PolicyEncodable(p: Policy)
    requires WellFormed(p)
    ensures Encodable(GrantOf(p))
  {
  }

  lemma {:induction false} GrantedLookup(gs: seq<Grant>, i: nat)
    requires i < |gs| && forall j :: i < j < |gs| ==> gs[j].service != gs[i].service
    ensures gs[i].service in Granted(gs) && Granted(gs)[gs[i].service] == gs[i].masks
    decreases |gs|
  {
    if i < |gs| - 1 {
      GrantedLookup(gs[..|gs| - 1], i);
    }
  }

  /** Permission masks mean sets: after packing, printing and decoding, a permission is held exactly when its number
      is in the service's set, however the caller spells the service's case or pads it with blanks. */
  lemma MasksMeanSets(ps: seq<Policy>, i: nat, spelling: string, bit: int)
    requires forall j :: 0 <= j < |ps| ==> WellFormed(ps[j])
    requires i < |ps| && forall j :: i < j < |ps| ==> ps[j].service != ps[i].service
    requires ToLower(Trim(spelling)) == ps[i].service
    ensures HasPermission(DecodeSpec(Encode(GrantsOf(ps))), spelling, bit) <==> bit >= 0 && bit in ps[i].positions
  {
    hide DecodeSpec, Encode, Granted, Pack, And, Pow2, ToLower, Trim;
    var gs := GrantsOf(ps);
    forall j | 0 <= j < |gs| ensures Encodable(gs[j]) {
      PolicyEncodable(ps[j]);
    }
    RoundTrip(gs);
    GrantedLookup(gs, i);
    if bit >= 0 {
      PackedMeansSet(ps[i].positions, ps[i].count, bit);
    }
  }

  /** Any finite set of permission numbers fits some number of ranges. */
  lemma {:induction false} EnoughRanges(positions: set<nat>) returns (count: nat)
    ensures count >= 1 && forall p :: p in positions ==> p < WIDTH * count
    decreases |positions|
  {
    count := 1;
    if positions != {} {
      var p :| p in positions;
      var rest := EnoughRanges(positions - {p});
      count := rest + p + 1;
      assert forall q :: q in positions ==> q == p || q in positions - {p};
    }
  }

  /** A service that no policy names holds no permission, however it is spelled. */
  lemma UnknownService(ps: seq<Policy>, spelling: string, bit: int)
    requires forall j :: 0 <= j < |ps| ==> WellFormed(ps[j])
    requires forall j :: 0 <= j < |ps| ==> ps[j].service != ToLower(Trim(spelling))
    ensures !HasPermission(DecodeSpec(Encode(GrantsOf(ps))), spelling, bit)
  {
    hide DecodeSpec, Encode, Granted, Pack, And, ToLower, Trim, WellFormed, Encodable;
    var gs := GrantsOf(ps);
    forall j | 0 <= j < |gs| ensures Encodable(gs[j]) {
      PolicyEncodable(ps[j]);
    }
    RoundTrip(gs);
    UnknownHoldsNothing(gs, ToLower(Trim(spelling)));
  }

  /** A service without an entry is not in the decoded map. */
  lemma {:induction false} UnknownHoldsNothing(gs: seq<Grant>, name: string)
    requires forall j :: 0 <= j < |gs| ==> gs[j].service != name
    ensures name !in Granted(gs)
  {
    if gs != [] {
      UnknownHoldsNothing(gs[..|gs| - 1], name);
    }
  }
}
