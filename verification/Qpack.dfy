/**
 * QPACK field sections without a dynamic table (sections 4.5.1, 4.5.2, 4.5.4 and
 * 4.5.6 of RFC 9204): the wire grammar, the response reader and the CONNECT request.
 */
module Qpack {
  import opened Bits
  import opened Outcome
  import opened PrefixInteger
  import opened Spans
  import Huffman
  import PrefixCode
  import Utf8

  // ---------------------------------------------------------------- wire grammar

  /** A field line as it stands on the wire, piece by piece; `nameText` and `text` are the decoded strings. */
  datatype Line =
    | Indexed(head: seq<byte>)
    | NameRef(head: seq<byte>, size: seq<byte>, value: seq<byte>)
    | Literal(head: seq<byte>, name: seq<byte>, nameText: seq<byte>, size: seq<byte>, value: seq<byte>, text: seq<byte>)

  datatype Section = Section(insertCount: seq<byte>, base: seq<byte>, lines: seq<Line>)

  function LineBytes(l: Line): (s: seq<byte>) {
    match l
    case Indexed(head) => head
    case NameRef(head, size, value) => head + (size + value)
    case Literal(head, name, _, size, value, _) => head + (name + (size + value))
  }

  function LinesBytes(ls: seq<Line>): (s: seq<byte>) {
    if ls == [] then [] else LineBytes(ls[0]) + LinesBytes(ls[1..])
  }

  function SectionBytes(sec: Section): (s: seq<byte>) {
    sec.insertCount + (sec.base + LinesBytes(sec.lines))
  }

  /** `size` announces a string of `n` bytes. */
  predicate Announces(size: seq<byte>, bits: nat, n: nat)
    requires 1 <= bits <= 8
  {
    IsInteger(size, bits) && IntegerValue(size, bits) == n
  }

  /** Whether a literal name, or a value, is Huffman-coded. */
  predicate NameFlag(first: byte) {
    (first / 8) % 2 == 1
  }

  predicate ValueFlag(first: byte) {
    first >= 128
  }

  ghost predicate IsText(raw: seq<byte>, huffman: bool, text: seq<byte>) {
    if huffman then Huffman.IsCoding(raw, text) else raw == text
  }

  /** The top bits of the first byte say which kind of line follows. */
  ghost predicate ValidLine(l: Line) {
    match l
    case Indexed(head) => IsInteger(head, 6) && head[0] >= 128
    case NameRef(head, size, value) =>
      IsInteger(head, 4) && head[0] / 64 == 1 && Announces(size, 7, |value|)
    case Literal(head, name, nameText, size, value, text) =>
      && Announces(head, 3, |name|) && head[0] / 32 == 1 && IsText(name, NameFlag(head[0]), nameText)
      && Announces(size, 7, |value|) && IsText(value, ValueFlag(size[0]), text)
  }

  ghost predicate ValidLines(ls: seq<Line>) {
    forall i :: 0 <= i < |ls| ==> ValidLine(ls[i])
  }

  ghost predicate ValidSection(sec: Section) {
    IsInteger(sec.insertCount, 8) && IsInteger(sec.base, 7) && ValidLines(sec.lines)
  }

  // ---------------------------------------------------------------- the grammar is unambiguous

  lemma After(a: seq<byte>, b: seq<byte>, whole: seq<byte>)
    requires a + b <= whole
    ensures a <= whole && b <= whole[|a|..]
  {
    assert a == (a + b)[..|a|];
    assert b == (a + b)[|a|..];
  }

  lemma SizedUnique(size1: seq<byte>, v1: seq<byte>, size2: seq<byte>, v2: seq<byte>, bits: nat, whole: seq<byte>)
    requires 1 <= bits <= 8 && Announces(size1, bits, |v1|) && Announces(size2, bits, |v2|)
    requires size1 + v1 <= whole && size2 + v2 <= whole
    ensures size1 == size2 && v1 == v2
  {
    After(size1, v1, whole);
    After(size2, v2, whole);
    IntegerUnique(size1, size2, bits, whole);
  }

  lemma TextUnique(raw: seq<byte>, huffman: bool, t1: seq<byte>, t2: seq<byte>)
    requires IsText(raw, huffman, t1) && IsText(raw, huffman, t2)
    ensures t1 == t2
  {
    if huffman { Huffman.CodingUnique(raw, t1, t2); }
  }

  lemma NameRefUnique(a: Line, b: Line, whole: seq<byte>)
    requires a.NameRef? && b.NameRef? && ValidLine(a) && ValidLine(b)
    requires LineBytes(a) <= whole && LineBytes(b) <= whole
    ensures a == b
  {
    After(a.head, a.size + a.value, whole);
    After(b.head, b.size + b.value, whole);
    IntegerUnique(a.head, b.head, 4, whole);
    SizedUnique(a.size, a.value, b.size, b.value, 7, whole[|a.head|..]);
  }

  lemma LiteralPieces(l: Line, whole: seq<byte>)
    requires l.Literal? && LineBytes(l) <= whole
    ensures l.head + l.name <= whole && l.size + l.value <= whole[|l.head + l.name|..]
  {
    assert LineBytes(l) == (l.head + l.name) + (l.size + l.value);
    After(l.head + l.name, l.size + l.value, whole);
  }

  lemma LiteralUnique(a: Line, b: Line, whole: seq<byte>)
    requires a.Literal? && b.Literal? && ValidLine(a) && ValidLine(b)
    requires LineBytes(a) <= whole && LineBytes(b) <= whole
    ensures a == b
  {
    LiteralPieces(a, whole);
    LiteralPieces(b, whole);
    SizedUnique(a.head, a.name, b.head, b.name, 3, whole);
    SizedUnique(a.size, a.value, b.size, b.value, 7, whole[|a.head + a.name|..]);
    TextUnique(a.name, NameFlag(a.head[0]), a.nameText, b.nameText);
    TextUnique(a.value, ValueFlag(a.size[0]), a.text, b.text);
  }

  lemma FirstByte(l: Line, whole: seq<byte>)
    requires ValidLine(l) && LineBytes(l) <= whole
    ensures |whole| > 0 && l.head[0] == whole[0]
  {
    assert LineBytes(l)[0] == l.head[0];
  }

  lemma LineUnique(a: Line, b: Line, whole: seq<byte>)
    requires ValidLine(a) && ValidLine(b) && LineBytes(a) <= whole && LineBytes(b) <= whole
    ensures a == b
  {
    FirstByte(a, whole);
    FirstByte(b, whole);
    match a
    case Indexed(_) => IntegerUnique(a.head, b.head, 6, whole);
    case NameRef(_, _, _) => NameRefUnique(a, b, whole);
    case Literal(_, _, _, _, _, _) => LiteralUnique(a, b, whole);
  }

  lemma {:induction false} LinesSnoc(ls: seq<Line>, l: Line)
    ensures LinesBytes(ls + [l]) == LinesBytes(ls) + LineBytes(l)
  {
    if ls == [] {
      assert ls + [l] == [l] && [l][1..] == [];
    } else {
      LinesSnoc(ls[1..], l);
      assert (ls + [l])[1..] == ls[1..] + [l];
      Associates(LineBytes(ls[0]), LinesBytes(ls[1..]), LineBytes(l));
    }
  }

  lemma SameFirstLine(a: seq<Line>, b: seq<Line>, tail: seq<byte>)
    requires a != [] && ValidLines(a) && ValidLines(b) && LinesBytes(a) + tail == LinesBytes(b)
    ensures b != [] && a[0] == b[0] && LinesBytes(a[1..]) + tail == LinesBytes(b[1..])
  {
    var first, rest := LineBytes(a[0]), LinesBytes(a[1..]) + tail;
    Associates(first, LinesBytes(a[1..]), tail);
    assert |first| > 0;
    LineUnique(a[0], b[0], first + rest);
    Cancel(first, rest, LinesBytes(b[1..]));
  }

  /** A parsed beginning is a beginning of every reading of the whole; the lines after it make up the rest. */
  lemma {:induction false} LinesAligned(a: seq<Line>, b: seq<Line>, tail: seq<byte>)
    requires ValidLines(a) && ValidLines(b) && LinesBytes(a) + tail == LinesBytes(b)
    ensures a <= b && tail == LinesBytes(b[|a|..])
  {
    if a == [] {
      assert LinesBytes(a) + tail == tail;
      assert b[0..] == b;
    } else {
      SameFirstLine(a, b, tail);
      LinesAligned(a[1..], b[1..], tail);
      Rejoin(a, b);
    }
  }

  lemma Rejoin(a: seq<Line>, b: seq<Line>)
    requires a != [] && b != [] && a[0] == b[0] && a[1..] <= b[1..]
    ensures a <= b && b[1..][|a[1..]|..] == b[|a|..]
  {
    assert a == [a[0]] + a[1..] && b == [b[0]] + b[1..];
  }

  lemma SectionAligned(a: Section, b: Section, tail: seq<byte>)
    requires ValidSection(a) && ValidSection(b) && SectionBytes(a) + tail == SectionBytes(b)
    ensures a.insertCount == b.insertCount && a.base == b.base
    ensures a.lines <= b.lines && tail == LinesBytes(b.lines[|a.lines|..])
  {
    var la, lb := LinesBytes(a.lines), LinesBytes(b.lines);
    Associates(a.insertCount, a.base + la, tail);
    Associates(a.base, la, tail);
    IntegerUnique(a.insertCount, b.insertCount, 8, SectionBytes(b));
    Cancel(a.insertCount, a.base + (la + tail), b.base + lb);
    IntegerUnique(a.base, b.base, 7, b.base + lb);
    Cancel(a.base, la + tail, lb);
    LinesAligned(a.lines, b.lines, tail);
  }

  /** Equal bytes, equal sections: any conforming reader recovers the same fields. */
  lemma SectionUnique(a: Section, b: Section)
    requires ValidSection(a) && ValidSection(b) && SectionBytes(a) == SectionBytes(b)
    ensures a == b
  {
    assert SectionBytes(a) + [] == SectionBytes(b) && SectionBytes(b) + [] == SectionBytes(a);
    SectionAligned(a, b, []);
    SectionAligned(b, a, []);
  }

  // ---------------------------------------------------------------- what a response says

  const ISIZE_MAX: nat := 0x7fff_ffff_ffff_ffff

  /** `cf-warp-colo` */
  const COLO_NAME: seq<byte> := [99, 102, 45, 119, 97, 114, 112, 45, 99, 111, 108, 111]

  datatype Response = Response(status: nat, colo: Option<seq<byte>>)

  /** What has been learned so far. */
  datatype Seen = Seen(status: Option<nat>, colo: Option<seq<byte>>)

  function StaticStatus(index: nat): (status: Option<nat>) {
    match index
    case 24 => Some(103) case 25 => Some(200) case 26 => Some(304) case 27 => Some(404) case 28 => Some(503)
    case 63 => Some(100) case 64 => Some(204) case 65 => Some(206) case 66 => Some(302) case 67 => Some(400)
    case 68 => Some(403) case 69 => Some(421) case 70 => Some(425) case 71 => Some(500)
    case _ => None
  }

  // The static table (Appendix A of RFC 9204) has its status codes in two runs of indices, ascending in each.

  const FIRST_RUN: set<nat> := {103, 200, 304, 404, 503}
  const SECOND_RUN: set<nat> := {100, 204, 206, 302, 400, 403, 421, 425, 500}

  lemma StatusesAscend(i: nat, j: nat)
    requires 24 <= i < j <= 28 || 63 <= i < j <= 71
    ensures StaticStatus(i).Some? && StaticStatus(j).Some? && StaticStatus(i).value < StaticStatus(j).value
  {
  }

  /** No other index has a status, and those of a run have its codes. */
  lemma StatusListed(i: nat)
    ensures StaticStatus(i).Some? <==> 24 <= i <= 28 || 63 <= i <= 71
    ensures 24 <= i <= 28 ==> StaticStatus(i).value in FIRST_RUN
    ensures 63 <= i <= 71 ==> StaticStatus(i).value in SECOND_RUN
  {
  }

  /** Every code of a run is found in it; as they ascend, this leaves one assignment of codes to indices. */
  lemma StatusFound(code: nat) returns (i: nat)
    requires code in FIRST_RUN || code in SECOND_RUN
    ensures StaticStatus(i) == Some(code) && (24 <= i <= 28 <==> code in FIRST_RUN)
  {
    i := if code == 103 then 24 else if code == 200 then 25 else if code == 304 then 26 else if code == 404 then 27
         else if code == 503 then 28 else if code == 100 then 63 else if code == 204 then 64 else if code == 206 then 65
         else if code == 302 then 66 else if code == 400 then 67 else if code == 403 then 68 else if code == 421 then 69
         else if code == 425 then 70 else 71;
  }

  /** The status a line states: only static-table references with a known index do. */
  ghost function StatusOf(l: Line): (status: Option<nat>)
    requires ValidLine(l)
  {
    if l.Indexed? && (l.head[0] / 64) % 2 == 1 then StaticStatus(IntegerValue(l.head, 6)) else None
  }

  predicate IsColo(l: Line) {
    l.Literal? && l.nameText == COLO_NAME
  }

  function ColoText(value: seq<byte>): (colo: Option<seq<byte>>) {
    if Utf8.Valid(value) then Some(value) else None
  }

  lemma ColoNameIs(i: nat)
    requires i < 12
    ensures |COLO_NAME| == 12 && COLO_NAME[i] == "cf-warp-colo"[i] as int
  {
  }

  /** A value is taken as it is exactly when it is the UTF-8 encoding of some characters, and otherwise not at all. */
  lemma ColoIsText(value: seq<byte>)
    ensures ColoText(value) == if exists cs :: Utf8.EncodeAll(cs) == value then Some(value) else None
  {
    Utf8.ValidIffEncoded(value);
  }

  /** The last line that states a status decides it; likewise the last colo line, even an ill-formed one. */
  ghost function Summary(ls: seq<Line>): (seen: Seen)
    requires ValidLines(ls)
  {
    if ls == [] then Seen(None, None) else Learn(Summary(ls[..|ls| - 1]), ls[|ls| - 1])
  }

  ghost function Learn(seen: Seen, l: Line): (after: Seen)
    requires ValidLine(l)
  {
    Seen(if StatusOf(l).Some? then StatusOf(l) else seen.status, if IsColo(l) then ColoText(l.text) else seen.colo)
  }

  ghost function Reading(sec: Section): (r: Result<Response>)
    requires ValidSection(sec)
  {
    var seen := Summary(sec.lines);
    if seen.status.Some? then Ok(Response(seen.status.value, seen.colo)) else Err
  }

  /** `l` can be read at `pos`. */
  ghost predicate LineAt(payload: seq<byte>, pos: nat, l: Line) {
    ValidLine(l) && At(payload, pos, LineBytes(l))
  }

  // ---------------------------------------------------------------- reader

  method DecodeString(raw: seq<byte>, huffman: bool) returns (r: Result<seq<byte>>)
    ensures forall text :: r == Ok(text) <==> IsText(raw, huffman, text)
  {
    if huffman {
      r := Huffman.Decode(raw);
    } else {
      r := Ok(raw);
    }
  }

  /** A string of announced length stands at `payload[pos..end]`, its bytes from `start`. */
  ghost predicate SizedAt(payload: seq<byte>, pos: nat, bits: nat, start: nat, end: nat)
    requires 1 <= bits <= 8
  {
    pos < start <= end <= |payload| && Announces(payload[pos..start], bits, end - start)
  }

  /** Reading `l` at `pos` moves strictly forward to `end` and adds what the line says. */
  ghost predicate LineRead(payload: seq<byte>, pos: nat, seen: Seen, l: Line, end: nat, after: Seen) {
    LineAt(payload, pos, l) && pos < end == pos + |LineBytes(l)| && after == Learn(seen, l)
  }

  /** The length, bounds and overflow checks shared by the three string readers. */
  method ReadSized(payload: seq<byte>, pos: nat, bits: nat) returns (r: Result<(nat, nat)>)
    requires 1 <= bits <= 8 && |payload| <= ISIZE_MAX
    ensures r.Ok? ==> SizedAt(payload, pos, bits, r.value.0, r.value.1)
    ensures r.Err? ==> forall start, end :: !SizedAt(payload, pos, bits, start, end)
  {
    var n := DecodeInteger(payload, pos, bits);
    if n.Err? { return Err; }
    var (len, start) := n.value;
    if start + len >= U64 || start + len > |payload| {
      forall s, e ensures !SizedAt(payload, pos, bits, s, e) {
        if SizedAt(payload, pos, bits, s, e) {
          SizedAgree(payload, pos, bits, s, start);
        }
      }
      return Err;
    }
    return Ok((start, start + len));
  }

  lemma SizedAgree(payload: seq<byte>, pos: nat, bits: nat, s1: nat, s2: nat)
    requires 1 <= bits <= 8 && pos < s1 <= |payload| && pos < s2 <= |payload|
    requires IsInteger(payload[pos..s1], bits) && IsInteger(payload[pos..s2], bits)
    ensures s1 == s2
  {
    IntegerUnique(payload[pos..s1], payload[pos..s2], bits, payload[pos..]);
  }

  /** A value string: its length, its bytes and the text they stand for. */
  ghost predicate ValueAt(payload: seq<byte>, pos: nat, start: nat, end: nat, text: seq<byte>) {
    SizedAt(payload, pos, 7, start, end) && IsText(payload[start..end], ValueFlag(payload[pos]), text)
  }

  method ReadLiteralValue(payload: seq<byte>, pos: nat) returns (r: Result<(seq<byte>, nat)>, ghost start: nat)
    requires |payload| <= ISIZE_MAX
    ensures r.Ok? ==> ValueAt(payload, pos, start, r.value.1, r.value.0)
    ensures r.Err? ==> forall s: nat, e: nat, text :: !ValueAt(payload, pos, s, e, text)
  {
    if pos >= |payload| { return Err, 0; }
    var sized := ReadSized(payload, pos, 7);
    if sized.Err? { return Err, 0; }
    var (from, end) := sized.value;
    var text := DecodeString(payload[from..end], ValueFlag(payload[pos]));
    if text.Err? {
      forall s: nat, e: nat | SizedAt(payload, pos, 7, s, e) ensures s == from && e == end {
        SizedAgree(payload, pos, 7, s, from);
      }
      return Err, 0;
    }
    return Ok((text.value, end)), from;
  }

  // How the pieces of a line that stands at `pos` lie in the payload.

  lemma NameRefSpans(payload: seq<byte>, pos: nat, l: Line) returns (n: nat, v: nat, e: nat)
    requires At(payload, pos, LineBytes(l)) && l.NameRef?
    ensures pos <= n <= v <= e <= |payload|
    ensures payload[pos..n] == l.head && payload[n..v] == l.size && payload[v..e] == l.value
  {
    n := TakeOff(payload, pos, l.head, l.size + l.value);
    v := TakeOff(payload, n, l.size, l.value);
    e := v + |l.value|;
  }

  lemma LiteralSpans(payload: seq<byte>, pos: nat, l: Line) returns (n: nat, m: nat, v: nat, e: nat)
    requires At(payload, pos, LineBytes(l)) && l.Literal?
    ensures pos <= n <= m <= v <= e <= |payload|
    ensures payload[pos..n] == l.head && payload[n..m] == l.name
    ensures payload[m..v] == l.size && payload[v..e] == l.value
  {
    n := TakeOff(payload, pos, l.head, l.name + (l.size + l.value));
    m := TakeOff(payload, n, l.name, l.size + l.value);
    v := TakeOff(payload, m, l.size, l.value);
    e := v + |l.value|;
  }

  lemma NameRefAt(payload: seq<byte>, pos: nat, l: Line) returns (n: nat, v: nat, e: nat)
    requires LineAt(payload, pos, l) && l.NameRef?
    ensures pos < n <= |payload| && IsInteger(payload[pos..n], 4)
    ensures SizedAt(payload, n, 7, v, e)
  {
    n, v, e := NameRefSpans(payload, pos, l);
  }

  lemma LiteralAt(payload: seq<byte>, pos: nat, l: Line) returns (n: nat, m: nat, v: nat, e: nat)
    requires LineAt(payload, pos, l) && l.Literal?
    ensures SizedAt(payload, pos, 3, n, m) && IsText(payload[n..m], NameFlag(payload[pos]), l.nameText)
    ensures ValueAt(payload, m, v, e, l.text)
  {
    n, m, v, e := LiteralSpans(payload, pos, l);
    assert payload[pos] == l.head[0] && payload[m] == l.size[0];
  }

  /** One field line: its effect and its end, or proof that no line stands here. */
  method ReadLine(payload: seq<byte>, pos: nat, seen: Seen) returns (r: Result<(nat, Seen)>, ghost l: Line)
    requires pos < |payload| <= ISIZE_MAX
    ensures r.Ok? ==> LineRead(payload, pos, seen, l, r.value.0, r.value.1)
    ensures r.Err? ==> forall l :: !LineAt(payload, pos, l)
  {
    l := Indexed([]);
    var b := payload[pos];
    forall l | LineAt(payload, pos, l) ensures l.head[0] == b { FirstByte(l, LineBytes(l)); }
    if b >= 128 {
      r, l := ReadIndexed(payload, pos, seen);
    } else if b / 64 == 1 {
      r, l := ReadNameRef(payload, pos, seen);
    } else if b / 32 == 1 {
      r, l := ReadLiteral(payload, pos, seen);
    } else {
      r := Err;
    }
  }

  method ReadIndexed(payload: seq<byte>, pos: nat, seen: Seen) returns (r: Result<(nat, Seen)>, ghost l: Line)
    requires pos < |payload| <= ISIZE_MAX && payload[pos] >= 128
    ensures r.Ok? ==> LineRead(payload, pos, seen, l, r.value.0, r.value.1)
    ensures r.Err? ==> forall l :: LineAt(payload, pos, l) ==> !l.Indexed?
  {
    l := Indexed([]);
    var n := DecodeInteger(payload, pos, 6);
    if n.Err? {
      forall l | LineAt(payload, pos, l) ensures !l.Indexed? {}
      return Err, l;
    }
    var (index, end) := n.value;
    l := Indexed(payload[pos..end]);
    var status := seen.status;
    if (payload[pos] / 64) % 2 == 1 {
      if index == 25 {
        status := Some(200);
      } else if StaticStatus(index).Some? {
        status := StaticStatus(index);
      }
    }
    return Ok((end, Seen(status, seen.colo))), l;
  }

  lemma NoNameRef(payload: seq<byte>, pos: nat, after: nat)
    requires pos < after <= |payload| && IsInteger(payload[pos..after], 4)
    requires forall start: nat, end: nat :: !SizedAt(payload, after, 7, start, end)
    ensures forall l :: LineAt(payload, pos, l) ==> !l.NameRef?
  {
    forall l | LineAt(payload, pos, l) ensures !l.NameRef? {
      if l.NameRef? {
        var n, v, e := NameRefAt(payload, pos, l);
        SizedAgree(payload, pos, 4, n, after);
        assert false;
      }
    }
  }

  lemma NameRefLine(payload: seq<byte>, pos: nat, after: nat, start: nat, end: nat, seen: Seen) returns (l: Line)
    requires pos < after <= |payload| && payload[pos] / 64 == 1
    requires IsInteger(payload[pos..after], 4) && SizedAt(payload, after, 7, start, end)
    ensures LineRead(payload, pos, seen, l, end, seen)
  {
    l := NameRef(payload[pos..after], payload[after..start], payload[start..end]);
    ThreeSpans(payload, pos, after, start, end);
  }

  lemma NoIndexNoNameRef(payload: seq<byte>, pos: nat)
    requires forall end: nat :: pos < end <= |payload| ==> !IsInteger(payload[pos..end], 4)
    ensures forall l :: LineAt(payload, pos, l) ==> !l.NameRef?
  {
    forall l | LineAt(payload, pos, l) ensures !l.NameRef? {
      if l.NameRef? { var n, v, e := NameRefAt(payload, pos, l); }
    }
  }

  lemma ThreeSpans(payload: seq<byte>, a: nat, b: nat, c: nat, d: nat)
    requires a <= b <= c <= d <= |payload|
    ensures payload[a..b] + (payload[b..c] + payload[c..d]) == payload[a..d]
  {
  }

  method ReadNameRef(payload: seq<byte>, pos: nat, seen: Seen) returns (r: Result<(nat, Seen)>, ghost l: Line)
    requires pos < |payload| <= ISIZE_MAX && payload[pos] / 64 == 1
    ensures r.Ok? ==> LineRead(payload, pos, seen, l, r.value.0, r.value.1)
    ensures r.Err? ==> forall l :: LineAt(payload, pos, l) ==> !l.NameRef?
  {
    l := Indexed([]);
    var n := DecodeInteger(payload, pos, 4);
    if n.Err? {
      NoIndexNoNameRef(payload, pos);
      return Err, l;
    }
    var (_, after) := n.value;
    var sized := ReadSized(payload, after, 7);
    if sized.Err? {
      NoNameRef(payload, pos, after);
      return Err, l;
    }
    var (start, end) := sized.value;
    l := NameRefLine(payload, pos, after, start, end, seen);
    return Ok((end, seen)), l;
  }

  lemma SizedUniqueAt(payload: seq<byte>, pos: nat, bits: nat, s1: nat, e1: nat, s2: nat, e2: nat)
    requires 1 <= bits <= 8 && SizedAt(payload, pos, bits, s1, e1) && SizedAt(payload, pos, bits, s2, e2)
    ensures s1 == s2 && e1 == e2
  {
    SizedAgree(payload, pos, bits, s1, s2);
  }

  /** Any literal line at `pos` has the name string `payload[start..end]` and a value string after it. */
  lemma LiteralMust(payload: seq<byte>, pos: nat, start: nat, end: nat, l: Line) returns (v: nat, e: nat)
    requires LineAt(payload, pos, l) && l.Literal? && SizedAt(payload, pos, 3, start, end)
    ensures IsText(payload[start..end], NameFlag(payload[pos]), l.nameText)
    ensures ValueAt(payload, end, v, e, l.text)
  {
    var n, m;
    n, m, v, e := LiteralAt(payload, pos, l);
    SameStrings(payload, pos, n, m, start, end, v, e, l.nameText, l.text);
  }

  lemma SameStrings(payload: seq<byte>, pos: nat, n: nat, m: nat, start: nat, end: nat, v: nat, e: nat,
                    nameText: seq<byte>, text: seq<byte>)
    requires SizedAt(payload, pos, 3, n, m) && SizedAt(payload, pos, 3, start, end)
    requires IsText(payload[n..m], NameFlag(payload[pos]), nameText) && ValueAt(payload, m, v, e, text)
    ensures IsText(payload[start..end], NameFlag(payload[pos]), nameText) && ValueAt(payload, end, v, e, text)
  {
    SizedUniqueAt(payload, pos, 3, n, m, start, end);
  }

  lemma LiteralLine(payload: seq<byte>, pos: nat, start: nat, end: nat, from: nat, stop: nat, nameText: seq<byte>,
                    text: seq<byte>,
                    seen: Seen, after: Seen)
      returns (l: Line)
    requires SizedAt(payload, pos, 3, start, end) && payload[pos] / 32 == 1
    requires IsText(payload[start..end], NameFlag(payload[pos]), nameText)
    requires ValueAt(payload, end, from, stop, text)
    requires after == Seen(seen.status, if nameText == COLO_NAME then ColoText(text) else seen.colo)
    ensures LineRead(payload, pos, seen, l, stop, after)
  {
    l := Literal(payload[pos..start], payload[start..end], nameText, payload[end..from], payload[from..stop], text);
    FourSpans(payload, pos, start, end, from, stop);
  }

  lemma NoNameSizeNoLiteral(payload: seq<byte>, pos: nat)
    requires forall start, end :: !SizedAt(payload, pos, 3, start, end)
    ensures NoLiteral(payload, pos)
  {
    forall l | LineAt(payload, pos, l) ensures !l.Literal? {
      if l.Literal? { var n, m, v, e := LiteralAt(payload, pos, l); }
    }
  }

  lemma NoStringNoLiteral(payload: seq<byte>, pos: nat, start: nat, end: nat)
    requires SizedAt(payload, pos, 3, start, end)
    requires (forall text :: !IsText(payload[start..end], NameFlag(payload[pos]), text))
          || (forall v: nat, e: nat, text :: !ValueAt(payload, end, v, e, text))
    ensures NoLiteral(payload, pos)
  {
    forall l | LineAt(payload, pos, l) ensures !l.Literal? {
      if l.Literal? { var v, e := LiteralMust(payload, pos, start, end, l); }
    }
  }

  lemma FourSpans(payload: seq<byte>, a: nat, b: nat, c: nat, d: nat, e: nat)
    requires a <= b <= c <= d <= e <= |payload|
    ensures payload[a..b] + (payload[b..c] + (payload[c..d] + payload[d..e])) == payload[a..e]
  {
  }

  ghost predicate NoLiteral(payload: seq<byte>, pos: nat) {
    forall l :: LineAt(payload, pos, l) ==> !l.Literal?
  }

  /** The two strings of a literal line and where it ends. */
  method ReadStrings(payload: seq<byte>, pos: nat)
      returns (r: Result<(seq<byte>, seq<byte>, nat)>, ghost start: nat, ghost end: nat, ghost from: nat)
    requires pos < |payload| <= ISIZE_MAX
    ensures r.Ok? ==>
              && SizedAt(payload, pos, 3, start, end) && IsText(payload[start..end], NameFlag(payload[pos]), r.value.0)
              && ValueAt(payload, end, from, r.value.2, r.value.1)
    ensures r.Err? ==> NoLiteral(payload, pos)
  {
    start, end, from := 0, 0, 0;
    var sized := ReadSized(payload, pos, 3);
    if sized.Err? {
      NoNameSizeNoLiteral(payload, pos);
      return Err, start, end, from;
    }
    start, end := sized.value.0, sized.value.1;
    var name := DecodeString(payload[sized.value.0..sized.value.1], NameFlag(payload[pos]));
    if name.Err? {
      NoStringNoLiteral(payload, pos, start, end);
      return Err, start, end, from;
    }
    var value;
    value, from := ReadLiteralValue(payload, sized.value.1);
    if value.Err? {
      NoStringNoLiteral(payload, pos, start, end);
      return Err, start, end, from;
    }
    r := Ok((name.value, value.value.0, value.value.1));
  }

  method ReadLiteral(payload: seq<byte>, pos: nat, seen: Seen) returns (r: Result<(nat, Seen)>, ghost l: Line)
    requires pos < |payload| <= ISIZE_MAX && payload[pos] / 32 == 1
    ensures r.Ok? ==> LineRead(payload, pos, seen, l, r.value.0, r.value.1)
    ensures r.Err? ==> NoLiteral(payload, pos)
  {
    l := Indexed([]);
    var strings, start, end, from := ReadStrings(payload, pos);
    if strings.Err? { return Err, l; }
    var (name, text, stop) := strings.value;
    var after := Seen(seen.status, if name == COLO_NAME then ColoText(text) else seen.colo);
    l := LiteralLine(payload, pos, start, end, from, stop, name, text, seen, after);
    return Ok((stop, after)), l;
  }

  // ---------------------------------------------------------------- whole sections

  /** `sec` accounts for the first `pos` bytes. */
  ghost predicate Parsed(payload: seq<byte>, pos: nat, sec: Section) {
    pos <= |payload| && ValidSection(sec) && SectionBytes(sec) == payload[..pos]
  }

  lemma SectionStart(sec: Section) returns (n: nat, m: nat)
    requires ValidSection(sec)
    ensures 0 < n < m <= |SectionBytes(sec)|
    ensures IsInteger(SectionBytes(sec)[0..n], 8) && IsInteger(SectionBytes(sec)[n..m], 7)
  {
    var s := SectionBytes(sec);
    n := |sec.insertCount|;
    m := n + |sec.base|;
    assert s[0..n] == sec.insertCount && s[n..m] == sec.base;
  }

  lemma SummarySnoc(ls: seq<Line>, l: Line, ls': seq<Line>)
    requires ValidLines(ls) && ValidLine(l) && ls' == ls + [l]
    ensures ValidLines(ls') && Summary(ls') == Learn(Summary(ls), l)
  {
    assert ls'[..|ls'| - 1] == ls;
  }

  lemma Extended(payload: seq<byte>, pos: nat, sec: Section, l: Line, end: nat, sec': Section)
    requires Parsed(payload, pos, sec) && LineAt(payload, pos, l)
    requires end == pos + |LineBytes(l)| && sec' == sec.(lines := sec.lines + [l])
    ensures Parsed(payload, end, sec') && Summary(sec'.lines) == Learn(Summary(sec.lines), l)
  {
    SectionSnoc(sec, l);
    PrefixGrows(payload, pos, LineBytes(l));
    SummarySnoc(sec.lines, l, sec'.lines);
  }

  lemma PrefixGrows(payload: seq<byte>, pos: nat, x: seq<byte>)
    requires At(payload, pos, x)
    ensures payload[..pos + |x|] == payload[..pos] + x
  {
  }

  lemma SectionSnoc(sec: Section, l: Line)
    ensures SectionBytes(sec.(lines := sec.lines + [l])) == SectionBytes(sec) + LineBytes(l)
  {
    LinesSnoc(sec.lines, l);
    Associates(sec.base, LinesBytes(sec.lines), LineBytes(l));
    Associates(sec.insertCount, sec.base + LinesBytes(sec.lines), LineBytes(l));
  }

  lemma RestOfLines(payload: seq<byte>, pos: nat, done: Section, sec: Section)
    requires Parsed(payload, pos, done) && ValidSection(sec) && SectionBytes(sec) == payload
    ensures done.lines <= sec.lines && payload[pos..] == LinesBytes(sec.lines[|done.lines|..])
  {
    assert payload == payload[..pos] + payload[pos..];
    SectionAligned(done, sec, payload[pos..]);
  }

  lemma FirstLineAt(payload: seq<byte>, pos: nat, rest: seq<Line>)
    requires pos < |payload| && ValidLines(rest) && payload[pos..] == LinesBytes(rest)
    ensures exists l :: LineAt(payload, pos, l)
  {
    var l := rest[0];
    Starts(payload, pos, LineBytes(l), LinesBytes(rest[1..]));
    assert LineAt(payload, pos, l);
  }

  lemma Starts(payload: seq<byte>, pos: nat, a: seq<byte>, b: seq<byte>)
    requires pos <= |payload| && payload[pos..] == a + b
    ensures At(payload, pos, a)
  {
    assert payload[pos..pos + |a|] == payload[pos..][..|a|];
  }

  /** What it means to have read `payload` correctly: as every section it can be, and only if it is one. */
  ghost predicate ReadsAs(payload: seq<byte>, r: Result<Response>) {
    && (forall sec :: ValidSection(sec) && SectionBytes(sec) == payload ==> r == Reading(sec))
    && (r.Ok? ==> exists sec :: ValidSection(sec) && SectionBytes(sec) == payload)
  }

  lemma NoInsertCount(payload: seq<byte>)
    requires forall p :: 0 < p <= |payload| ==> !IsInteger(payload[0..p], 8)
    ensures ReadsAs(payload, Err)
  {
    forall sec | ValidSection(sec) && SectionBytes(sec) == payload ensures false {
      var n, m := SectionStart(sec);
    }
  }

  lemma NoBase(payload: seq<byte>, n: nat)
    requires 0 < n <= |payload| && IsInteger(payload[0..n], 8)
    requires forall p :: n < p <= |payload| ==> !IsInteger(payload[n..p], 7)
    ensures ReadsAs(payload, Err)
  {
    forall sec | ValidSection(sec) && SectionBytes(sec) == payload ensures false {
      var n', m := SectionStart(sec);
      SizedAgree(payload, 0, 8, n', n);
    }
  }

  lemma NoLine(payload: seq<byte>, pos: nat, done: Section)
    requires Parsed(payload, pos, done) && pos < |payload| && forall l :: !LineAt(payload, pos, l)
    ensures ReadsAs(payload, Err)
  {
    forall sec | ValidSection(sec) && SectionBytes(sec) == payload ensures false {
      RestOfLines(payload, pos, done, sec);
      FirstLineAt(payload, pos, sec.lines[|done.lines|..]);
    }
  }

  lemma WholeSection(payload: seq<byte>, done: Section)
    requires Parsed(payload, |payload|, done)
    ensures ReadsAs(payload, Reading(done))
  {
    assert payload[..|payload|] == payload;
    forall sec | ValidSection(sec) && SectionBytes(sec) == payload ensures sec == done {
      SectionUnique(sec, done);
    }
  }

  lemma NoLinesYet(payload: seq<byte>, n: nat, m: nat)
    requires 0 < n < m <= |payload| && IsInteger(payload[0..n], 8) && IsInteger(payload[n..m], 7)
    ensures Parsed(payload, m, Section(payload[0..n], payload[n..m], []))
  {
    assert payload[0..n] + (payload[n..m] + []) == payload[..m];
  }

  method DecodeHeaders(payload: seq<byte>) returns (r: Result<Response>)
    requires |payload| <= ISIZE_MAX
    ensures ReadsAs(payload, r)
  {
    var count := DecodeInteger(payload, 0, 8);
    if count.Err? {
      NoInsertCount(payload);
      return Err;
    }
    var n := count.value.1;
    var base := DecodeInteger(payload, n, 7);
    if base.Err? {
      NoBase(payload, n);
      return Err;
    }
    var pos := base.value.1;
    NoLinesYet(payload, n, pos);
    var seen, done := ReadLines(payload, pos, Section(payload[0..n], payload[n..pos], []));
    if seen.Err? { return Err; }
    WholeSection(payload, done);
    if seen.value.status.None? { return Err; }
    return Ok(Response(seen.value.status.value, seen.value.colo));
  }

  /** All lines up to the end of the payload, which starts as `start` says. */
  method ReadLines(payload: seq<byte>, from: nat, ghost start: Section) returns (r: Result<Seen>, ghost done: Section)
    requires |payload| <= ISIZE_MAX && Parsed(payload, from, start) && start.lines == []
    ensures r.Ok? ==> Parsed(payload, |payload|, done) && r.value == Summary(done.lines)
    ensures r.Err? ==> ReadsAs(payload, Err)
  {
    var pos, seen := from, Seen(None, None);
    done := start;
    while pos < |payload|
      invariant Parsed(payload, pos, done) && seen == Summary(done.lines)
    {
      var step, l := ReadLine(payload, pos, seen);
      if step.Err? {
        NoLine(payload, pos, done);
        return Err, done;
      }
      ghost var done' := done.(lines := done.lines + [l]);
      Extended(payload, pos, done, l, step.value.0, done');
      pos, seen, done := step.value.0, step.value.1, done';
    }
    r := Ok(seen);
  }

  // ---------------------------------------------------------------- from fields to bytes

  /** Fields as a sender means them. `flags` are the N and T bits of a name reference. */
  datatype Field =
    | StaticField(index: nat)
    | DynamicField(index: nat)
    | NamedField(flags: nat, index: nat, huffman: bool, text: seq<byte>)
    | LiteralField(never: bool, nameHuffman: bool, name: seq<byte>, huffman: bool, text: seq<byte>)

  function Raw(text: seq<byte>, huffman: bool): (raw: seq<byte>) {
    if huffman then PrefixCode.Encode(Huffman.TABLE, text) else text
  }

  /** Every integer of the field fits its prefix; larger ones no reader takes. */
  ghost predicate Sendable(f: Field) {
    match f
    case StaticField(index) => Fits(index, 6)
    case DynamicField(index) => Fits(index, 6)
    case NamedField(flags, index, huffman, text) => flags < 4 && Fits(index, 4) && Fits(|Raw(text, huffman)|, 7)
    case LiteralField(_, nameHuffman, name, huffman, text) =>
      Fits(|Raw(name, nameHuffman)|, 3) && Fits(|Raw(text, huffman)|, 7)
  }

  function Size(raw: seq<byte>, huffman: bool): (size: seq<byte>) {
    IntegerBytes(|raw|, 7, if huffman then 128 else 0)
  }

  function Wire(f: Field): (l: Line)
    requires f.NamedField? ==> f.flags < 4
  {
    match f
    case StaticField(index) => Indexed(IntegerBytes(index, 6, 192))
    case DynamicField(index) => Indexed(IntegerBytes(index, 6, 128))
    case NamedField(flags, index, huffman, text) =>
      var raw := Raw(text, huffman);
      NameRef(IntegerBytes(index, 4, 64 + 16 * flags), Size(raw, huffman), raw)
    case LiteralField(never, nameHuffman, name, huffman, text) =>
      var raw, rawName := Raw(text, huffman), Raw(name, nameHuffman);
      var high := 32 + (if never then 16 else 0) + (if nameHuffman then 8 else 0);
      Literal(IntegerBytes(|rawName|, 3, high), rawName, name, Size(raw, huffman), raw, text)
  }

  lemma SizeAnnounces(raw: seq<byte>, huffman: bool)
    requires Fits(|raw|, 7)
    ensures Announces(Size(raw, huffman), 7, |raw|) && ValueFlag(Size(raw, huffman)[0]) == huffman
  {
    IntegerRoundTrip(|raw|, 7, if huffman then 128 else 0);
  }

  /** The flag bits survive in the first byte. */
  lemma FirstByteOf(value: nat, bits: nat, high: nat)
    requires 1 <= bits <= 8 && high + Full(bits) <= 255
    ensures |IntegerBytes(value, bits, high)| > 0 && high <= IntegerBytes(value, bits, high)[0] <= high + Full(bits)
  {
  }

  lemma IndexedHead(index: nat, high: nat)
    requires Fits(index, 6) && (high == 128 || high == 192)
    ensures var head := IntegerBytes(index, 6, high);
            IsInteger(head, 6) && IntegerValue(head, 6) == index && high <= head[0] <= high + 63
  {
    assert high % 64 == 0;
    IntegerRoundTrip(index, 6, high);
    FirstByteOf(index, 6, high);
  }

  lemma StaticIsValid(index: nat)
    requires Fits(index, 6)
    ensures ValidLine(Wire(StaticField(index))) && IntegerValue(Wire(StaticField(index)).head, 6) == index
    ensures Wire(StaticField(index)).head[0] >= 192
    ensures StatusOf(Wire(StaticField(index))) == StaticStatus(index)
  {
    IndexedHead(index, 192);
  }

  lemma DynamicIsValid(index: nat)
    requires Fits(index, 6)
    ensures ValidLine(Wire(DynamicField(index))) && StatusOf(Wire(DynamicField(index))) == None
  {
    IndexedHead(index, 128);
  }

  lemma NamedIsValid(f: Field)
    requires f.NamedField? && Sendable(f)
    ensures ValidLine(Wire(f)) && IntegerValue(Wire(f).head, 4) == f.index && Wire(f).head[0] / 16 == 4 + f.flags
  {
    ReferenceHead(f.index, 64 + 16 * f.flags);
    SizeAnnounces(Raw(f.text, f.huffman), f.huffman);
  }

  lemma ReferenceBits(high: nat, low: nat)
    requires (high == 64 || high == 80 || high == 96 || high == 112) && low < 16
    ensures high % 16 == 0 && (high + low) / 64 == 1 && (high + low) / 16 == high / 16
  {
  }

  lemma NameBits(high: nat, low: nat)
    requires (high == 32 || high == 40 || high == 48 || high == 56) && low < 8
    ensures high % 8 == 0 && (high + low) / 32 == 1 && NameFlag(high + low) == (high == 40 || high == 56)
  {
  }

  lemma ReferenceHead(index: nat, high: nat)
    requires Fits(index, 4) && (high == 64 || high == 80 || high == 96 || high == 112)
    ensures var head := IntegerBytes(index, 4, high);
            IsInteger(head, 4) && IntegerValue(head, 4) == index && head[0] / 64 == 1 && head[0] / 16 == high / 16
  {
    ReferenceBits(high, 0);
    IntegerRoundTrip(index, 4, high);
    FirstByteOf(index, 4, high);
    ReferenceBits(high, IntegerBytes(index, 4, high)[0] - high);
  }

  lemma NameAnnounces(n: nat, high: nat)
    requires Fits(n, 3) && (high == 32 || high == 40 || high == 48 || high == 56)
    ensures var head := IntegerBytes(n, 3, high);
            Announces(head, 3, n) && head[0] / 32 == 1 && NameFlag(head[0]) == (high == 40 || high == 56)
  {
    NameBits(high, 0);
    IntegerRoundTrip(n, 3, high);
    FirstByteOf(n, 3, high);
    NameBits(high, IntegerBytes(n, 3, high)[0] - high);
  }

  lemma LiteralIsValid(f: Field)
    requires f.LiteralField? && Sendable(f)
    ensures ValidLine(Wire(f))
  {
    NameAnnounces(|Raw(f.name, f.nameHuffman)|, 32 + (if f.never then 16 else 0) + (if f.nameHuffman then 8 else 0));
    SizeAnnounces(Raw(f.text, f.huffman), f.huffman);
  }

  /** Every sendable field becomes a valid line with the meaning it was sent with. */
  lemma WireIsValid(f: Field)
    requires Sendable(f)
    ensures ValidLine(Wire(f))
    ensures StatusOf(Wire(f)) == if f.StaticField? then StaticStatus(f.index) else None
    ensures IsColo(Wire(f)) <==> f.LiteralField? && f.name == COLO_NAME
  {
    match f
    case StaticField(index) => StaticIsValid(index);
    case DynamicField(index) => DynamicIsValid(index);
    case NamedField(_, _, _, _) => NamedIsValid(f);
    case LiteralField(_, _, _, _, _) => LiteralIsValid(f);
  }

  function WireAll(fs: seq<Field>): (ls: seq<Line>)
    requires forall i :: 0 <= i < |fs| && fs[i].NamedField? ==> fs[i].flags < 4
    ensures |ls| == |fs| && forall i :: 0 <= i < |fs| ==> ls[i] == Wire(fs[i])
  {
    if fs == [] then [] else WireAll(fs[..|fs| - 1]) + [Wire(fs[|fs| - 1])]
  }

  ghost predicate AllSendable(fs: seq<Field>) {
    forall i :: 0 <= i < |fs| ==> Sendable(fs[i])
  }

  /** The status of the last static reference that has one. */
  function LastStatus(fs: seq<Field>): (status: Option<nat>) {
    if fs == [] then None
    else
      var f := fs[|fs| - 1];
      if f.StaticField? && StaticStatus(f.index).Some? then StaticStatus(f.index) else LastStatus(fs[..|fs| - 1])
  }

  /** The value of the last `cf-warp-colo` field, unless it is not UTF-8. */
  function LastColo(fs: seq<Field>): (colo: Option<seq<byte>>) {
    if fs == [] then None
    else
      var f := fs[|fs| - 1];
      if f.LiteralField? && f.name == COLO_NAME then ColoText(f.text) else LastColo(fs[..|fs| - 1])
  }

  lemma {:induction false} SummaryOfWire(fs: seq<Field>)
    requires AllSendable(fs)
    ensures ValidLines(WireAll(fs)) && Summary(WireAll(fs)) == Seen(LastStatus(fs), LastColo(fs))
  {
    forall i | 0 <= i < |fs| ensures ValidLine(Wire(fs[i])) { WireIsValid(fs[i]); }
    if fs != [] {
      SummaryOfWire(fs[..|fs| - 1]);
      WireIsValid(fs[|fs| - 1]);
      assert WireAll(fs)[..|fs| - 1] == WireAll(fs[..|fs| - 1]);
    }
  }

  /** Any required insert count, and a base with its sign. */
  function WireSection(count: nat, negative: bool, base: nat, fs: seq<Field>): (sec: Section)
    requires forall i :: 0 <= i < |fs| && fs[i].NamedField? ==> fs[i].flags < 4
  {
    Section(IntegerBytes(count, 8, 0), IntegerBytes(base, 7, if negative then 128 else 0), WireAll(fs))
  }

  lemma WireSectionIsValid(count: nat, negative: bool, base: nat, fs: seq<Field>)
    requires AllSendable(fs) && Fits(count, 8) && Fits(base, 7)
    ensures ValidSection(WireSection(count, negative, base, fs))
    ensures Summary(WireSection(count, negative, base, fs).lines) == Seen(LastStatus(fs), LastColo(fs))
  {
    IntegerRoundTrip(count, 8, 0);
    IntegerRoundTrip(base, 7, if negative then 128 else 0);
    SummaryOfWire(fs);
  }

  /** A whole response, for any insert count, base and sign and any mix of fields, is read as it was meant. */
  lemma ResponseRoundTrip(count: nat, negative: bool, base: nat, fs: seq<Field>, r: Result<Response>)
    requires AllSendable(fs) && Fits(count, 8) && Fits(base, 7)
    requires ReadsAs(SectionBytes(WireSection(count, negative, base, fs)), r)
    ensures r == if LastStatus(fs).Some? then Ok(Response(LastStatus(fs).value, LastColo(fs))) else Err
  {
    WireSectionIsValid(count, negative, base, fs);
    assert r == Reading(WireSection(count, negative, base, fs));
  }

  // ---------------------------------------------------------------- the CONNECT request

  const METHOD_CONNECT: nat := 15
  const AUTHORITY: nat := 0
  const AUTHORIZATION: nat := 84

  function ConnectFields(authority: seq<byte>, token: seq<byte>): (fs: seq<Field>) {
    [StaticField(METHOD_CONNECT),
     NamedField(1, AUTHORITY, false, authority),
     NamedField(3, AUTHORIZATION, false, token)]
  }

  method EncodeString(out: seq<byte>, s: seq<byte>) returns (r: seq<byte>)
    ensures r == out + Size(s, false) + s
  {
    r := EncodeInteger(out, |s|, 7, 0x00);
    r := r + s;
  }

  method EncodeConnectRequest(authority: seq<byte>, token: seq<byte>) returns (out: seq<byte>)
    ensures out == SectionBytes(WireSection(0, false, 0, ConnectFields(authority, token)))
  {
    out := [0x00, 0x00, 0xCF, 0x50];
    out := EncodeString(out, authority);
    out := out + [0x7F, 0x45];
    out := EncodeString(out, token);
    ConnectBytes(authority, token);
  }

  lemma ConnectBytes(authority: seq<byte>, token: seq<byte>)
    ensures SectionBytes(WireSection(0, false, 0, ConnectFields(authority, token)))
         == [0x00, 0x00, 0xCF, 0x50] + Size(authority, false) + authority + [0x7F, 0x45] + Size(token, false) + token
  {
    var fs := ConnectFields(authority, token);
    ThreeLines(WireAll(fs));
    FixedBytes();
    Regroup(Size(authority, false), authority, Size(token, false), token);
  }

  lemma FixedBytes()
    ensures IntegerBytes(0, 8, 0) == [0] && IntegerBytes(0, 7, 0) == [0]
    ensures IntegerBytes(METHOD_CONNECT, 6, 192) == [0xCF]
    ensures IntegerBytes(AUTHORITY, 4, 80) == [0x50] && IntegerBytes(AUTHORIZATION, 4, 112) == [0x7F, 0x45]
  {
    assert Digits(69) == [0x45];
  }

  lemma Regroup(n: seq<byte>, a: seq<byte>, m: seq<byte>, t: seq<byte>)
    ensures [0] + ([0] + ([0xCF] + (([0x50] + (n + a)) + ([0x7F, 0x45] + (m + t)))))
         == [0x00, 0x00, 0xCF, 0x50] + n + a + [0x7F, 0x45] + m + t
  {
    assert [0] + ([0] + ([0xCF] + [0x50])) == [0x00, 0x00, 0xCF, 0x50];
  }

  lemma ThreeLines(ls: seq<Line>)
    requires |ls| == 3
    ensures LinesBytes(ls) == LineBytes(ls[0]) + (LineBytes(ls[1]) + LineBytes(ls[2]))
  {
    assert ls[1..][1..] == ls[2..] && ls[2..][1..] == [];
    assert LinesBytes(ls[2..]) == LineBytes(ls[2]) + [];
  }

  /**
   * Whoever parses the request by the grammar finds the method, this authority and this token, and nothing else; all
   * three refer to the static table, and the token is marked never to be indexed.
   */
  lemma ConnectRecovered(authority: seq<byte>, token: seq<byte>, sec: Section)
    requires Fits(|authority|, 7) && Fits(|token|, 7)
    requires ValidSection(sec)
    requires SectionBytes(sec) == SectionBytes(WireSection(0, false, 0, ConnectFields(authority, token)))
    ensures |sec.lines| == 3
    ensures sec.lines[0].Indexed? && IntegerValue(sec.lines[0].head, 6) == 15
    ensures sec.lines[0].head[0] >= 192 && sec.lines[1].head[0] / 16 == 5 && sec.lines[2].head[0] / 16 == 7
    ensures sec.lines[1].NameRef? && IntegerValue(sec.lines[1].head, 4) == 0 && sec.lines[1].value == authority
    ensures sec.lines[2].NameRef? && IntegerValue(sec.lines[2].head, 4) == 84 && sec.lines[2].value == token
  {
    var fs := ConnectFields(authority, token);
    ConnectSection(authority, token, sec);
    ConnectFirst();
    NamedIsValid(fs[1]);
    NamedIsValid(fs[2]);
  }

  lemma ConnectSection(authority: seq<byte>, token: seq<byte>, sec: Section)
    requires Fits(|authority|, 7) && Fits(|token|, 7) && ValidSection(sec)
    requires SectionBytes(sec) == SectionBytes(WireSection(0, false, 0, ConnectFields(authority, token)))
    ensures AllSendable(ConnectFields(authority, token)) && sec.lines == WireAll(ConnectFields(authority, token))
  {
    assert Pow2(63) > 84 by { Pow2Values(); }
    WireSectionIsValid(0, false, 0, ConnectFields(authority, token));
    SectionUnique(sec, WireSection(0, false, 0, ConnectFields(authority, token)));
  }

  lemma ConnectFirst()
    ensures var l := Wire(StaticField(METHOD_CONNECT));
            l.Indexed? && IsInteger(l.head, 6) && IntegerValue(l.head, 6) == METHOD_CONNECT && l.head[0] >= 192
  {
    assert Pow2(63) > 84 by { Pow2Values(); }
    StaticIsValid(METHOD_CONNECT);
  }
}
