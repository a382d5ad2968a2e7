/**
 Record and replay: a pedigree is written to the log as decimal ranks from the root down, with
 underscores between them, and read back to be compared with the pedigree of a running strand.
*/
module Replay {

  const LONG_MAX: nat := 0x7FFF_FFFF_FFFF_FFFF
  const TWO_64: nat := 0x1_0000_0000_0000_0000
  const PEDIGREE_BUFF_SIZE: nat := 512

  datatype PedType = Unknown | Steal | Sync | Orphaned | EndOfLog

  /** A strand's pedigree: its rank and the pedigree above it. */
  datatype Pedigree = NoParent | Node(rank: nat, parent: Pedigree)

  /** From the node to the root. */
  function Ranks(p: Pedigree): (r: seq<nat>)
    ensures r == [] <==> p == NoParent
  {
    match p
    case NoParent => []
    case Node(rank, parent) => [rank] + Ranks(parent)
  }

  // ---------------------------------------------------------------- decimal

  predicate IsDigit(c: char) {
    '0' <= c <= '9'
  }

  function DigitChar(d: nat): (c: char)
    requires d < 10
    ensures IsDigit(c) && c as int - '0' as int == d
  {
    ('0' as int + d) as char
  }

  function DigitValue(c: char): (d: nat)
    requires IsDigit(c)
    ensures d < 10
  {
    (c as int - '0' as int) as nat
  }

  function Decimal(n: nat): (s: string)
    ensures s != [] && forall i :: 0 <= i < |s| ==> IsDigit(s[i])
  {
    if n < 10 then [DigitChar(n)] else Decimal(n / 10) + [DigitChar(n % 10)]
  }

  function Value(s: string): nat
    requires forall i :: 0 <= i < |s| ==> IsDigit(s[i])
  {
    if s == [] then 0 else 10 * Value(s[..|s| - 1]) + DigitValue(s[|s| - 1])
  }

  lemma {:induction false} DecimalRoundTrip(n: nat)
    ensures Value(Decimal(n)) == n
  {
    if n < 10 {
      assert Decimal(n)[..0] == [];
    } else {
      DecimalRoundTrip(n / 10);
      assert Decimal(n)[..|Decimal(n)| - 1] == Decimal(n / 10);
    }
  }

  function Capped(n: nat, cap: nat): nat {
    if n > cap then cap else n
  }

  /** What `strtol` makes of a number that is too large for it. */
  function Saturated(n: nat): nat {
    Capped(n, LONG_MAX)
  }

  // ---------------------------------------------------------------- the text

  /** Ranks from the root down, with underscores between them. */
  function Text(p: Pedigree): string
    requires p.Node?
  {
    if p.parent.Node? then Text(p.parent) + "_" + Decimal(p.rank) else Decimal(p.rank)
  }

  /** Where the digits that start at `i` end. */
  function NumberEnd(s: string, i: nat): (e: nat)
    requires i <= |s|
    ensures i <= e <= |s| && (forall k :: i <= k < e ==> IsDigit(s[k])) && (e < |s| ==> !IsDigit(s[e]))
    decreases |s| - i
  {
    if i < |s| && IsDigit(s[i]) then NumberEnd(s, i + 1) else i
  }

  predicate IsSpace(c: char) {
    c == ' ' || 9 <= c as int <= 13
  }

  function SpaceEnd(s: string, i: nat): (e: nat)
    requires i <= |s|
    ensures i <= e <= |s| && (forall k :: i <= k < e ==> IsSpace(s[k])) && (e < |s| ==> !IsSpace(s[e]))
    decreases |s| - i
  {
    if i < |s| && IsSpace(s[i]) then SpaceEnd(s, i + 1) else i
  }

  predicate Signed(s: string, i: nat) {
    i < |s| && (s[i] == '+' || s[i] == '-')
  }

  /** Where digits may start after white space and a sign. */
  function DigitsAt(s: string, i: nat): (d: nat)
    requires i <= |s|
    ensures i <= d <= |s|
  {
    var e := SpaceEnd(s, i);
    if Signed(s, e) then e + 1 else e
  }

  /** Where `strtol` stops: after the digits, or where it started if there are none. */
  function FieldEnd(s: string, i: nat): (e: nat)
    requires i <= |s|
    ensures i <= e <= |s|
  {
    var d := DigitsAt(s, i);
    if NumberEnd(s, d) == d then i else NumberEnd(s, d)
  }

  /** A long, as an unsigned number of 64 bits. */
  function Unsigned(negative: bool, magnitude: nat): nat {
    if negative && magnitude > 0 then TWO_64 - Capped(magnitude, LONG_MAX + 1) else Saturated(magnitude)
  }

  /** The value that `strtol` gives at `i`. */
  function Field(s: string, i: nat): nat
    requires i <= |s|
  {
    var d := DigitsAt(s, i);
    Unsigned(SpaceEnd(s, i) < d && s[SpaceEnd(s, i)] == '-', Value(s[d..NumberEnd(s, d)]))
  }

  /** The terms of a text from position `i` on. */
  function Terms(s: string, i: nat): (ts: seq<nat>)
    requires i <= |s|
    ensures ts != []
    decreases |s| - i
  {
    var e := FieldEnd(s, i);
    [Field(s, i)] + (if e == |s| then [] else Terms(s, e + 1))
  }

  /** A printed number is read without white space or sign. */
  lemma FieldOfDigits(s: string, i: nat)
    requires i < |s| && IsDigit(s[i])
    ensures FieldEnd(s, i) == NumberEnd(s, i) && Field(s, i) == Saturated(Value(s[i..NumberEnd(s, i)]))
  {
  }

  /** A number as a C program may write it, with white space and a sign in front: `strtol` takes the digits
      up to the first other character, and saturates; negative numbers are then counted from 2^64 down. */
  lemma SignedField(space: string, sign: string, n: nat, rest: string)
    requires (forall k :: 0 <= k < |space| ==> IsSpace(space[k])) && (sign == "" || sign == "+" || sign == "-")
    requires rest != "" ==> !IsDigit(rest[0])
    ensures var t := space + sign + Decimal(n) + rest;
      && FieldEnd(t, 0) == |t| - |rest|
      && Field(t, 0) == if sign != "-" then (if n > LONG_MAX then LONG_MAX else n)
                        else if n == 0 then 0 else if n > LONG_MAX then LONG_MAX + 1 else TWO_64 - n
  {
    hide Decimal, Value, Field, FieldEnd, NumberEnd, SpaceEnd, DigitsAt;
    var digits := Decimal(n);
    var t := space + sign + digits + rest;
    var j, d := |space|, |space| + |sign|;
    var e := d + |digits|;
    assert forall k :: 0 <= k < j ==> t[k] == space[k];
    assert forall k :: d <= k < e ==> t[k] == digits[k - d];
    assert sign != "" ==> t[j] == sign[0];
    assert rest != "" ==> t[e] == rest[0];
    FieldParts(t, j, d, e);
    assert t[d..e] == digits;
    DecimalRoundTrip(n);
  }

  /** Without digits it reads nothing, and the value is 0. */
  lemma EmptyField(space: string, sign: string, rest: string)
    requires (forall k :: 0 <= k < |space| ==> IsSpace(space[k])) && (sign == "" || sign == "+" || sign == "-")
    requires rest != "" ==> !IsDigit(rest[0]) && (sign == "" ==> !IsSpace(rest[0]) && rest[0] != '+' && rest[0] != '-')
    ensures FieldEnd(space + sign + rest, 0) == 0 && Field(space + sign + rest, 0) == 0
  {
    hide Value, Field, FieldEnd, NumberEnd, SpaceEnd, DigitsAt;
    var t := space + sign + rest;
    var j, d := |space|, |space| + |sign|;
    assert forall k :: 0 <= k < j ==> t[k] == space[k];
    assert sign != "" ==> t[j] == sign[0];
    assert rest != "" ==> t[d] == rest[0];
    FieldParts(t, j, d, d);
    assert t[d..d] == "";
    NoDigits();
  }

  lemma NoDigits()
    ensures Value("") == 0
  {
  }

  /** White space up to `j`, a sign or none up to `d`, digits or none up to `e`. */
  lemma FieldParts(t: string, j: nat, d: nat, e: nat)
    requires j <= d <= e <= |t| && (forall k :: 0 <= k < j ==> IsSpace(t[k])) && (j < |t| ==> !IsSpace(t[j]))
    requires d == if Signed(t, j) then j + 1 else j
    requires (forall k :: d <= k < e ==> IsDigit(t[k])) && (e < |t| ==> !IsDigit(t[e]))
    ensures FieldEnd(t, 0) == if e == d then 0 else e
    ensures Field(t, 0) == Unsigned(j < d && t[j] == '-', Value(t[d..e]))
  {
    hide Value, NumberEnd, SpaceEnd;
    SpaceEndIs(t, 0, j);
    NumberEndIs(t, d, e);
  }

  /** What follows an underscore does not change how the text before it is read. */
  lemma SameField(s: string, t: string, i: nat)
    requires i <= |s| < |t| && t[|s|] == '_' && forall k :: 0 <= k < |s| ==> t[k] == s[k]
    ensures FieldEnd(t, i) == FieldEnd(s, i) && Field(t, i) == Field(s, i)
  {
    SpaceEndIs(t, i, SpaceEnd(s, i));
    var d := DigitsAt(s, i);
    assert DigitsAt(t, i) == d;
    NumberEndIs(t, d, NumberEnd(s, d));
    assert t[d..NumberEnd(s, d)] == s[d..NumberEnd(s, d)];
  }

  lemma {:induction false} SpaceEndIs(s: string, i: nat, e: nat)
    requires i <= e <= |s| && (forall k :: i <= k < e ==> IsSpace(s[k])) && (e < |s| ==> !IsSpace(s[e]))
    ensures SpaceEnd(s, i) == e
    decreases |s| - i
  {
    if i < e { SpaceEndIs(s, i + 1, e); }
  }

  lemma TermsUnfold(s: string, i: nat)
    requires i <= |s|
    ensures Terms(s, i) == [Field(s, i)] + (if FieldEnd(s, i) == |s| then [] else Terms(s, FieldEnd(s, i) + 1))
  {
  }

  lemma {:induction false} NumberEndIs(s: string, i: nat, e: nat)
    requires i <= e <= |s| && (forall k :: i <= k < e ==> IsDigit(s[k])) && (e < |s| ==> !IsDigit(s[e]))
    ensures NumberEnd(s, i) == e
    decreases |s| - i
  {
    if i < e { NumberEndIs(s, i + 1, e); }
  }

  /** Reading a text that goes on, after an underscore, with one more term. */
  lemma {:induction false} TermsExtend(s: string, t: string, i: nat, x: nat)
    requires i <= |s| < |t| && t[|s|] == '_' && Terms(t, |s| + 1) == [x]
    requires forall k :: 0 <= k < |s| ==> t[k] == s[k]
    ensures Terms(t, i) == Terms(s, i) + [x]
    decreases |s| - i
  {
    hide Terms, Field, FieldEnd;
    var e := FieldEnd(s, i);
    SameField(s, t, i);
    TermsUnfold(s, i);
    TermsUnfold(t, i);
    if e < |s| {
      TermsExtend(s, t, e + 1, x);
    }
  }

  lemma TermsAppend(s: string, n: nat)
    ensures Terms(s + "_" + Decimal(n), 0) == Terms(s, 0) + [Saturated(n)]
  {
    hide Terms, Decimal;
    LastTerm(s + "_", n);
    TermsExtend(s, s + "_" + Decimal(n), 0, Saturated(n));
  }

  /** A number that nothing follows. */
  lemma LastField(t: string, i: nat)
    requires i < |t| && forall k :: i <= k < |t| ==> IsDigit(t[k])
    ensures Terms(t, i) == [Saturated(Value(t[i..]))]
  {
    hide Field, FieldEnd, NumberEnd, Value, Terms, Saturated;
    NumberEndIs(t, i, |t|);
    FieldOfDigits(t, i);
    TermsUnfold(t, i);
    assert t[i..|t|] == t[i..];
  }

  lemma LastTerm(s: string, n: nat)
    ensures Terms(s + Decimal(n), |s|) == [Saturated(n)]
  {
    hide Decimal, Terms, Value;
    var t, digits := s + Decimal(n), Decimal(n);
    assert t[|s|..] == digits;
    assert forall k :: |s| <= k < |t| ==> t[k] == digits[k - |s|];
    LastField(t, |s|);
    DecimalRoundTrip(n);
  }

  function Reverse(s: seq<nat>): (r: seq<nat>)
    ensures |r| == |s| && forall i :: 0 <= i < |s| ==> r[i] == s[|s| - 1 - i]
  {
    if s == [] then [] else Reverse(s[1..]) + [s[0]]
  }

  function SaturatedAll(s: seq<nat>): (r: seq<nat>)
    ensures |r| == |s| && forall i :: 0 <= i < |s| ==> r[i] == Saturated(s[i])
  {
    if s == [] then [] else [Saturated(s[0])] + SaturatedAll(s[1..])
  }

  lemma {:induction false} ReverseAppend(s: seq<nat>, x: nat)
    ensures Reverse(s + [x]) == [x] + Reverse(s)
  {
    assert forall i :: 0 <= i < |s| + 1 ==> Reverse(s + [x])[i] == ([x] + Reverse(s))[i];
  }

  /** What is read back is what was written, leaf first, as far as the numbers fit a long. */
  lemma {:induction false} ReadBack(p: Pedigree)
    requires p.Node?
    ensures Reverse(Terms(Text(p), 0)) == SaturatedAll(Ranks(p))
  {
    if p.parent.Node? {
      ReadBack(p.parent);
      TermsAppend(Text(p.parent), p.rank);
      ReverseAppend(Terms(Text(p.parent), 0), Saturated(p.rank));
    } else {
      LastTerm("", p.rank);
      assert "" + Decimal(p.rank) == Decimal(p.rank);
      assert Reverse([Saturated(p.rank)]) == [Saturated(p.rank)];
    }
  }

  /** A text that fits the buffer never has more terms than the parser has room for. */
  lemma {:induction false} TermsFit(p: Pedigree)
    requires p.Node?
    ensures 2 * |Ranks(p)| <= |Text(p)| + 1
    ensures |Text(p)| < PEDIGREE_BUFF_SIZE ==> |Terms(Text(p), 0)| <= PEDIGREE_BUFF_SIZE / 2
  {
    ReadBack(p);
    if p.parent.Node? {
      TermsFit(p.parent);
    }
  }

  // ---------------------------------------------------------------- the code

  /** Write `n` in decimal at `p`; the position after it. */
  method PrintDecimal(buffer: array<char>, p: nat, n: nat) returns (end: nat)
    requires p + |Decimal(n)| < buffer.Length
    modifies buffer
    ensures end == p + |Decimal(n)| && buffer[p..end] == Decimal(n) && buffer[end] == '\0'
    ensures forall k :: 0 <= k < buffer.Length && !(p <= k <= end) ==> buffer[k] == old(buffer[k])
    decreases n
  {
    if n < 10 {
      buffer[p] := DigitChar(n);
      end := p + 1;
    } else {
      var q := PrintDecimal(buffer, p, n / 10);
      buffer[q] := DigitChar(n % 10);
      end := q + 1;
    }
    buffer[end] := '\0';
    assert buffer[p..end] == buffer[p..end - 1] + [buffer[end - 1]];
  }

  /** Write the pedigree from the root down; the position after it. */
  method WalkPedigreeNodes(buffer: array<char>, p0: nat, node: Pedigree) returns (p: nat)
    requires node.Node? && p0 + |Text(node)| < buffer.Length
    modifies buffer
    ensures p == p0 + |Text(node)| && buffer[p0..p] == Text(node) && buffer[p] == '\0'
    ensures forall k :: 0 <= k < p0 ==> buffer[k] == old(buffer[k])
    decreases node
  {
    p := p0;
    if node.parent.Node? {
      p := WalkPedigreeNodes(buffer, p, node.parent);
      ghost var before := buffer[p0..p];
      buffer[p] := '_';
      p := p + 1;
      assert buffer[p0..p] == before + "_";
    }
    ghost var prefix := buffer[p0..p];
    ghost var q := p;
    p := PrintDecimal(buffer, p, node.rank);
    assert buffer[p0..q] == prefix;
    assert buffer[p0..p] == buffer[p0..q] + buffer[q..p];
  }

  /** White space, a sign, and decimal digits, saturating at the ends of the type; with no digits, nothing
      is read.  The result is converted to an unsigned number. */
  method Strtol(s: string, p: nat) returns (v: nat, end: nat)
    requires p <= |s|
    ensures end == FieldEnd(s, p) && v == Field(s, p)
  {
    var start := SkipSpace(s, p);
    var negative := false;
    if start < |s| && (s[start] == '+' || s[start] == '-') {
      negative := s[start] == '-';
      start := start + 1;
    }
    var magnitude;
    magnitude, end := ReadDigits(s, start, if negative then LONG_MAX + 1 else LONG_MAX);
    if end == start {
      end := p;
    }
    v := if negative && magnitude > 0 then TWO_64 - magnitude else magnitude;
  }

  method SkipSpace(s: string, p: nat) returns (end: nat)
    requires p <= |s|
    ensures end == SpaceEnd(s, p)
  {
    end := p;
    while end < |s| && IsSpace(s[end])
      invariant p <= end <= |s| && forall k :: p <= k < end ==> IsSpace(s[k])
    {
      end := end + 1;
    }
    SpaceEndIs(s, p, end);
  }

  method ReadDigits(s: string, p: nat, cap: nat) returns (v: nat, end: nat)
    requires p <= |s|
    ensures end == NumberEnd(s, p) && v == Capped(Value(s[p..end]), cap)
  {
    v, end := 0, p;
    while end < |s| && IsDigit(s[end])
      invariant p <= end <= |s| && (forall k :: p <= k < end ==> IsDigit(s[k])) && v == Capped(Value(s[p..end]), cap)
    {
      assert s[p..end + 1][..end - p] == s[p..end];
      v := Capped(10 * v + DigitValue(s[end]), cap);
      end := end + 1;
    }
    NumberEndIs(s, p, end);
  }

  /** A 32-bit value in a 16-bit field: itself if it is in range, else the value of the range that differs
      from it by a multiple of 2^16. */
  function Int16(x: int): (r: int)
    ensures InRange16(r) && (r - x) % 65536 == 0 && (InRange16(x) ==> r == x)
  {
    Truncated(x);
    (x + 32768) % 65536 - 32768
  }

  predicate InRange16(x: int) {
    -32768 <= x < 32768
  }

  lemma Truncated(x: int)
    ensures var r := (x + 32768) % 65536 - 32768; InRange16(r) && (r - x) % 65536 == 0 && (InRange16(x) ==> r == x)
  {
  }

  lemma OnlyOne16(x: int, r: int)
    requires InRange16(r) && (r - x) % 65536 == 0
    ensures r == Int16(x)
  {
  }

  predicate Known(name: string) {
    name == "Steal" || name == "Sync" || name == "Orphaned"
  }

  class ReplayEntry {
    var reversePedigree: array<nat>
    var typ: PedType
    var value: int

    constructor ()
      ensures typ == Unknown
    {
      reversePedigree := new nat[0];
      typ, value := Unknown, -1;
    }

    /** False, with nothing parsed, for an unknown type. */
    method Load(name: string, text: string, value1: int) returns (ok: bool)
      requires Known(name) ==> |Terms(text, 0)| <= PEDIGREE_BUFF_SIZE / 2
      modifies this
      ensures ok == Known(name)
      ensures name == "Steal" ==> typ == Steal && InRange16(value) && (value - value1) % 65536 == 0 && (InRange16(value1) ==> value == value1)
      ensures name == "Sync" ==> typ == Sync && value == -1
      ensures name == "Orphaned" ==> typ == Orphaned && value == -1
      ensures !Known(name) ==> typ == Unknown && value == -1
      ensures ok ==> fresh(reversePedigree) && reversePedigree[..] == Reverse(Terms(text, 0))
    {
      if name == "Steal" {
        typ, value := Steal, Int16(value1);
      } else {
        value := -1;
        if name == "Sync" {
          typ := Sync;
        } else if name == "Orphaned" {
          typ := Orphaned;
        } else {
          typ := Unknown;
          return false;
        }
      }
      var temp := new nat[PEDIGREE_BUFF_SIZE / 2];
      var n := Parse(text, temp);
      reversePedigree := Reversed(temp, n);
      ok := true;
    }

    static method Reversed(temp: array<nat>, n: nat) returns (r: array<nat>)
      requires n <= temp.Length
      ensures fresh(r) && r[..] == Reverse(temp[..n])
    {
      r := new nat[n];
      var i := 0;
      while i < n
        invariant 0 <= i <= n
        invariant forall k :: 0 <= k < i ==> r[k] == temp[n - 1 - k]
      {
        r[i] := temp[(n - 1) - i];
        i := i + 1;
      }
    }

    /** The terms of the text, into the array that is there for them. */
    method Parse(text: string, temp: array<nat>) returns (len: nat)
      requires |Terms(text, 0)| <= temp.Length
      modifies temp
      ensures len == |Terms(text, 0)| && temp[..len] == Terms(text, 0)
    {
      hide Field, FieldEnd, Terms;
      ghost var all := Terms(text, 0);
      len := 0;
      var p := 0;
      while true
        invariant p <= |text| && len <= temp.Length && temp[..len] + Terms(text, p) == all
        decreases |text| - p
      {
        TermsUnfold(text, p);
        var v, end := Strtol(text, p);
        assert |temp[..len] + Terms(text, p)| == |all|;
        NextTerm(temp[..len], v, Terms(text, p), all);
        StoreTerm(temp, len, v);
        len := len + 1;
        if end == |text| {
          break;
        }
        p := end + 1;
      }
    }

    static lemma NextTerm(before: seq<nat>, v: nat, terms: seq<nat>, all: seq<nat>)
      requires terms != [] && terms[0] == v && before + terms == all
      ensures before + [v] + terms[1..] == all && |before| < |all| && (|terms| == 1 ==> before + [v] == all)
    {
    }

    static method StoreTerm(temp: array<nat>, len: nat, v: nat)
      requires len < temp.Length
      modifies temp
      ensures temp[..len + 1] == old(temp[..len]) + [v]
    {
      temp[len] := v;
    }

    /** The entry is for this type, this victim if it is a steal, and exactly this pedigree. */
    method Match(t: PedType, node0: Pedigree, victim: int) returns (ok: bool)
      ensures ok == (t == typ && (t == Steal ==> victim == value) && Ranks(node0) == reversePedigree[..])
    {
      if t != typ {
        return false;
      }
      if t == Steal && victim != value {
        return false;
      }
      var node, i := node0, 0;
      while node.Node? && i < reversePedigree.Length
        invariant 0 <= i <= reversePedigree.Length
        invariant Ranks(node0) == reversePedigree[..i] + Ranks(node)
        decreases reversePedigree.Length - i
      {
        if node.rank != reversePedigree[i] {
          assert Ranks(node0)[i] == node.rank;
          return false;
        }
        assert reversePedigree[..i + 1] == reversePedigree[..i] + [reversePedigree[i]];
        node := node.parent;
        i := i + 1;
      }
      ok := node == NoParent && i == reversePedigree.Length;
      if ok {
        assert reversePedigree[..i] == reversePedigree[..];
      } else {
        assert |Ranks(node0)| == i + |Ranks(node)|;
      }
    }

    /** The position of the next entry that is not an orphan without its steal. */
    static method NextEntry(entries: seq<(PedType, int)>, e: nat) returns (n: nat)
      requires e < |entries| && entries[|entries| - 1].0 == EndOfLog
      requires forall k :: 0 <= k < |entries| - 1 ==> entries[k].0 != EndOfLog
      ensures n < |entries| && (entries[e].0 == EndOfLog ==> n == e)
      ensures entries[e].0 != EndOfLog ==> n > e && entries[n] != (Orphaned, -1)
      ensures forall k :: e < k < n ==> entries[k] == (Orphaned, -1)
    {
      n := e;
      if entries[n].0 == EndOfLog {
        return;
      }
      n := n + 1;
      while entries[n].0 == Orphaned && entries[n].1 == -1
        invariant e < n < |entries| && forall k :: e < k < n ==> entries[k] == (Orphaned, -1)
        decreases |entries| - n
      {
        n := n + 1;
      }
    }
  }

  // ---------------------------------------------------------------- round trip

  predicate AllFit(ranks: seq<nat>) {
    forall i :: 0 <= i < |ranks| ==> ranks[i] <= LONG_MAX
  }

  /** What is recorded for `p`, as it is compared when the log is replayed. */
  function Recorded(p: Pedigree): seq<nat>
    requires p.Node?
  {
    Reverse(Terms(Text(p), 0))
  }

  /** For ranks that fit a long, an entry recorded for `p` is matched by `p` and by nothing else. */
  lemma ReplayRoundTrip(p: Pedigree, q: Pedigree)
    requires p.Node? && AllFit(Ranks(p))
    ensures Ranks(q) == Recorded(p) <==> q == p
  {
    ReadBack(p);
    assert SaturatedAll(Ranks(p)) == Ranks(p);
    if Ranks(q) == Ranks(p) { RanksInjective(p, q); }
  }

  lemma {:induction false} RanksInjective(p: Pedigree, q: Pedigree)
    requires Ranks(p) == Ranks(q)
    ensures p == q
  {
    if p.Node? {
      assert Ranks(p)[0] == p.rank && Ranks(q)[0] == q.rank;
      assert Ranks(p)[1..] == Ranks(p.parent) && Ranks(q)[1..] == Ranks(q.parent);
      RanksInjective(p.parent, q.parent);
    }
  }

  /** Exactly for those: with a larger rank the recorded strand does not even match itself. */
  lemma ReplayExact(p: Pedigree)
    requires p.Node?
    ensures Ranks(p) == Recorded(p) <==> AllFit(Ranks(p))
  {
    ReadBack(p);
    hide Terms, Text, Reverse, Ranks, SaturatedAll;
    var r := Ranks(p);
    if AllFit(r) {
      assert SaturatedAll(r) == r;
    } else {
      var i :| 0 <= i < |r| && r[i] > LONG_MAX;
      assert SaturatedAll(r)[i] != r[i];
    }
  }

  /** Record a pedigree, read the text back and compare: what is accepted is that pedigree and no other. */
  method RecordAndReplay(p: Pedigree, q: Pedigree) returns (ok: bool)
    requires p.Node? && AllFit(Ranks(p)) && |Text(p)| < PEDIGREE_BUFF_SIZE
    ensures ok <==> q == p
  {
    hide Terms, Text;
    var buffer := new char[PEDIGREE_BUFF_SIZE];
    var n := WalkPedigreeNodes(buffer, 0, p);
    TermsFit(p);
    var entry := new ReplayEntry();
    var loaded := entry.Load("Sync", buffer[..n], -1);
    ok := entry.Match(Sync, q, -1);
    ReplayRoundTrip(p, q);
  }

  /** The same for a steal: what is accepted is the recorded pedigree with the recorded victim, or, if that
      is no 16-bit value, the one that its last 16 bits are. */
  method RecordAndReplaySteal(p: Pedigree, victim: int, q: Pedigree, other: int) returns (ok: bool)
    requires p.Node? && AllFit(Ranks(p)) && |Text(p)| < PEDIGREE_BUFF_SIZE
    ensures ok <==> q == p && InRange16(other) && (other - victim) % 65536 == 0
    ensures InRange16(victim) ==> (ok <==> q == p && other == victim)
  {
    hide Terms, Text, Int16;
    var buffer := new char[PEDIGREE_BUFF_SIZE];
    var n := WalkPedigreeNodes(buffer, 0, p);
    TermsFit(p);
    var entry := new ReplayEntry();
    var loaded := entry.Load("Steal", buffer[..n], victim);
    ok := entry.Match(Steal, q, other);
    ReplayRoundTrip(p, q);
    OnlyOne16(victim, entry.value);
    if InRange16(other) && (other - victim) % 65536 == 0 { OnlyOne16(victim, other); }
  }
}
