/** alloc.rs: a static allocation, rendered as an anonymous C struct whose
    members tile the allocation's bytes (runs of `int8_t` between the
    relocations, a `void*` at each relocation) followed by its initializer.
    The writer is the text the methods return; the struct and the
    initializer walk the bytes the same way. */
module Alloc {
  import opened Wrappers
  import opened Strings
  import opened CRepr
  import opened Ty
  import opened Expr

  type Byte = b: nat | b < 256

  const BYTES_PREFIX := "bytes_"
  const PTRS_PREFIX := "ptr_"

  /** `ptr_size`: pointers are taken to be eight bytes wide. */
  const PTR_SIZE: nat := 8

  /** `StaticAllocation`: the bytes, the relocations as (offset, pointer
      expression) pairs, and the variable's name. */
  datatype StaticAllocation = StaticAllocation(name: string, bytes: seq<Byte>, ptrs: seq<(nat, Expression)>)

  /** One member of the struct: `len` bytes from `from`, or the pointer of
      relocation `idx`. */
  datatype Segment = ByteRun(from: nat, len: nat) | PtrSlot(idx: nat)

  /** `next_ptr_offset`: where relocation `k` starts, or the end of the
      bytes once the relocations are used up. */
  function NextPtrOffset(a: StaticAllocation, k: nat): (r: nat)
    ensures k < |a.ptrs| ==> r == a.ptrs[k].0
    ensures |a.ptrs| <= k ==> r == |a.bytes|
  {
    if k < |a.ptrs| then a.ptrs[k].0 else |a.bytes|
  }

  /** The walk both loops of `build_declaration` make, from byte `cur` with
      relocation `ptrIdx` next: a byte run up to the next relocation when
      one lies ahead, the relocation's pointer otherwise. */
  function LayoutFrom(a: StaticAllocation, cur: nat, ptrIdx: nat): (r: seq<Segment>)
    decreases |a.bytes| - cur
  {
    if |a.bytes| <= cur then []
    else
      var next := NextPtrOffset(a, ptrIdx);
      if cur < next then [ByteRun(cur, next - cur)] + LayoutFrom(a, next, ptrIdx)
      else [PtrSlot(ptrIdx)] + LayoutFrom(a, cur + PTR_SIZE, ptrIdx + 1)
  }

  /** The members of the struct, in order. */
  function Layout(a: StaticAllocation): seq<Segment>
  {
    LayoutFrom(a, 0, 0)
  }

  /** The bytes the segments cover: a run's length, or one pointer each. */
  function Width(segs: seq<Segment>): nat
  {
    if |segs| == 0 then 0
    else (if segs[0].ByteRun? then segs[0].len else PTR_SIZE) + Width(segs[1..])
  }

  /** The relocations the segments hold pointers for, in order. */
  function PtrIndices(segs: seq<Segment>): (r: seq<nat>)
    ensures |r| <= |segs|
  {
    if |segs| == 0 then []
    else (if segs[0].PtrSlot? then [segs[0].idx] else []) + PtrIndices(segs[1..])
  }

  /** What the layout relies on of the relocations rustc hands over: each
      pointer lies inside the bytes, and the offsets increase by at least
      a pointer's width. */
  predicate WellFormed(a: StaticAllocation)
  {
    (forall k :: 0 <= k < |a.ptrs| ==> a.ptrs[k].0 + PTR_SIZE <= |a.bytes|) &&
    (forall j, k :: 0 <= j < k < |a.ptrs| ==> a.ptrs[j].0 + PTR_SIZE <= a.ptrs[k].0)
  }

  /** `build_bytes_definition`: run `num` is the array `bytes_<num>` of
      the run's length. */
  function BytesDefinition(num: nat, len: nat): (r: string)
  {
    "int8_t " + BYTES_PREFIX + NatToString(num) + "[" + NatToString(len) + "];"
  }

  /** `build_ptr_definition`: pointer `k`, commented with its relocation's
      offset, or 0 past the last relocation. */
  function PtrDefinition(a: StaticAllocation, k: nat): (r: string)
  {
    "void* " + PTRS_PREFIX + NatToString(k) + "; /* offset " + NatToString(if k < |a.ptrs| then a.ptrs[k].0 else 0) + " */"
  }

  /** A member line: the indent, the member, and the newline. */
  function DefLine(a: StaticAllocation, s: Segment, num: nat, c: ReprContext): string
  {
    IndentText(c) + (if s.ByteRun? then BytesDefinition(num, s.len) else PtrDefinition(a, s.idx)) + NewlineText(c)
  }

  /** The struct's member lines for the segments, byte runs numbered on
      from `num`. */
  function DefsText(a: StaticAllocation, segs: seq<Segment>, num: nat, c: ReprContext): string
  {
    if |segs| == 0 then ""
    else DefLine(a, segs[0], num, c) + DefsText(a, segs[1..], num + (if segs[0].ByteRun? then 1 else 0), c)
  }

  /** One byte as `0xHH`, in upper-case hexadecimal. */
  function ByteText(b: Byte): (r: string)
    ensures |r| == 4 && r[..2] == "0x"
  {
    "0x" + Hex2(b, true)
  }

  /** Bytes as `0xHH` separated by `, `. */
  function ByteListText(bs: seq<Byte>): string
  {
    if |bs| == 0 then ""
    else if |bs| == 1 then ByteText(bs[0])
    else ByteListText(bs[..|bs| - 1]) + ", " + ByteText(bs[|bs| - 1])
  }

  /** `build_bytes_declaration`: the bytes `[from, to)` in braces; reading
      past the end of the bytes aborts. */
  function BytesInitText(a: StaticAllocation, from: nat, to: nat): (r: Result<string>)
    ensures r.Panic? <==> from < to && |a.bytes| < to
  {
    if to <= from then Ok("{}")
    else if |a.bytes| < to then Panic("index out of bounds")
    else Ok("{" + ByteListText(a.bytes[from..to]) + "}")
  }

  /** One initializer element, indented: a run's bytes, or the relocation's
      pointer expression rendered in the context so far. */
  function InitItem(a: StaticAllocation, s: Segment, c: ReprContext): (r: Result<(string, ReprContext)>)
    ensures r.Ok? ==> Evolves(c, r.value.1)
  {
    match s
    case ByteRun(from, len) =>
      var t :- BytesInitText(a, from, from + len);
      Ok((IndentText(c) + t, c))
    case PtrSlot(k) =>
      if |a.ptrs| <= k then Panic("index out of bounds")
      else
        var (t, c1) :- ExprText(a.ptrs[k].1, c);
        Ok((IndentText(c) + t, c1))
  }

  /** The initializer elements for the segments, each preceded by `,` and
      a newline unless it is the very first. */
  function InitsText(a: StaticAllocation, segs: seq<Segment>, first: bool, c: ReprContext): (r: Result<(string, ReprContext)>)
    ensures r.Ok? ==> Evolves(c, r.value.1)
  {
    if |segs| == 0 then Ok(("", c))
    else
      var sep := if first then "" else "," + NewlineText(c);
      var (item, c1) :- InitItem(a, segs[0], c);
      var (rest, c2) :- InitsText(a, segs[1..], false, c1);
      Ok((sep + item + rest, c2))
  }

  /** Text already written, in front of what is still to come. */
  function Behind(out: string, r: Result<(string, ReprContext)>): Result<(string, ReprContext)>
  {
    if r.Panic? then r else Ok((out + r.value.0, r.value.1))
  }

  /** `build_declaration` (and `repr`): the struct of the members, the
      variable's name, and the initializer. */
  function DeclarationText(a: StaticAllocation, c: ReprContext): (r: Result<(string, ReprContext)>)
    ensures r.Ok? ==> Evolves(c, r.value.1)
  {
    var (items, c1) :- InitsText(a, Layout(a), true, c);
    Ok(("struct {" + NewlineText(c) + DefsText(a, Layout(a), 0, c) + "} " + a.name + " = {" + NewlineText(c) +
        items + NewlineText(c1) + "};", c1))
  }

  // The loops.

  /** `build_bytes_declaration`'s loop over `from..to`; the braces go
      around the list it builds. */
  method BuildBytesDeclaration(a: StaticAllocation, from: nat, to: nat) returns (r: Result<string>)
    ensures r == BytesInitText(a, from, to)
  {
    var items := "";
    var i := from;
    while i < to
      invariant from <= i && (from < to ==> i <= to) && (to <= from ==> i == from)
      invariant i == from ==> items == ""
      invariant from < i ==> i <= |a.bytes| && items == ByteListText(a.bytes[from..i])
    {
      if i >= |a.bytes| {
        return Panic("index out of bounds");
      }
      ByteListStep(a.bytes, from, i);
      if i > from {
        items := items + ", ";
      }
      items := items + ByteText(a.bytes[i]);
      i := i + 1;
    }
    if to <= from {
      assert "{" + items + "}" == "{}";
    }
    r := Ok("{" + items + "}");
  }

  /** One member of the first loop of `build_declaration`: the segment
      at `cur`, its line, and where the walk goes on. */
  method DefinitionStep(a: StaticAllocation, c: ReprContext, cur: nat, ptrIdx: nat, byteIdx: nat)
    returns (line: string, cur': nat, ptrIdx': nat, byteIdx': nat)
    requires cur < |a.bytes|
    ensures var w := LayoutFrom(a, cur, ptrIdx);
      |w| > 0 && line == DefLine(a, w[0], byteIdx, c) && w[1..] == LayoutFrom(a, cur', ptrIdx') &&
      byteIdx' == byteIdx + (if w[0].ByteRun? then 1 else 0) && cur < cur'
  {
    WalkStep(a, cur, ptrIdx);
    var next := NextPtrOffset(a, ptrIdx);
    if cur < next {
      line := DefLine(a, ByteRun(cur, next - cur), byteIdx, c);
      byteIdx', ptrIdx' := byteIdx + 1, ptrIdx;
      cur' := cur + (next - cur);
    } else {
      line := DefLine(a, PtrSlot(ptrIdx), byteIdx, c);
      byteIdx', ptrIdx' := byteIdx, ptrIdx + 1;
      cur' := cur + PTR_SIZE;
    }
  }

  /** The first loop of `build_declaration`: one member line per segment
      of the walk. */
  method BuildDefinitions(a: StaticAllocation, c: ReprContext) returns (out: string)
    ensures out == DefsText(a, Layout(a), 0, c)
  {
    var byteIdx := 0;
    var ptrIdx := 0;
    var cur := 0;
    out := "";
    assert out + DefsText(a, Layout(a), 0, c) == DefsText(a, Layout(a), 0, c);
    while cur < |a.bytes|
      invariant out + DefsText(a, LayoutFrom(a, cur, ptrIdx), byteIdx, c) == DefsText(a, Layout(a), 0, c)
      decreases |a.bytes| - cur
    {
      DefsStep(a, out, LayoutFrom(a, cur, ptrIdx), byteIdx, c);
      var line;
      line, cur, ptrIdx, byteIdx := DefinitionStep(a, c, cur, ptrIdx, byteIdx);
      out := out + line;
    }
    assert out + "" == out;
  }

  /** One element of the second loop of `build_declaration`: the
      segment at `cur` rendered, and where the walk goes on. */
  method InitializerStep(a: StaticAllocation, c: ReprContext, cur: nat, ptrIdx: nat)
    returns (r: Result<(string, ReprContext)>, cur': nat, ptrIdx': nat)
    requires cur < |a.bytes|
    ensures var w := LayoutFrom(a, cur, ptrIdx);
      |w| > 0 && r == InitItem(a, w[0], c) && w[1..] == LayoutFrom(a, cur', ptrIdx') && cur < cur'
  {
    WalkStep(a, cur, ptrIdx);
    var next := NextPtrOffset(a, ptrIdx);
    if cur < next {
      var t := BuildBytesDeclaration(a, cur, next);
      if t.Panic? {
        return Panic(t.reason), next, ptrIdx;
      }
      r := Ok((IndentText(c) + t.value, c));
      cur', ptrIdx' := cur + (next - cur), ptrIdx;
    } else {
      var t := ExprText(a.ptrs[ptrIdx].1, c);
      if t.Panic? {
        return Panic(t.reason), cur + PTR_SIZE, ptrIdx + 1;
      }
      r := Ok((IndentText(c) + t.value.0, t.value.1));
      cur', ptrIdx' := cur + PTR_SIZE, ptrIdx + 1;
    }
  }

  /** The second loop of `build_declaration`: the same walk, one
      initializer element per segment. The byte-run counter the loop also
      advances is not read by anything it writes. */
  method BuildInitializers(a: StaticAllocation, c: ReprContext) returns (r: Result<(string, ReprContext)>)
    ensures r == InitsText(a, Layout(a), true, c)
  {
    var cur := 0;
    var ptrIdx := 0;
    var cc := c;
    var out := "";
    assert Behind(out, InitsText(a, Layout(a), true, c)) == InitsText(a, Layout(a), true, c) by {
      var all := InitsText(a, Layout(a), true, c);
      if all.Ok? {
        assert "" + all.value.0 == all.value.0;
      }
    }
    while cur < |a.bytes|
      invariant Behind(out, InitsText(a, LayoutFrom(a, cur, ptrIdx), cur == 0, cc)) == InitsText(a, Layout(a), true, c)
      decreases |a.bytes| - cur
    {
      var sep := "";
      if cur > 0 {
        sep := "," + NewlineText(cc);
      }
      ghost var w := LayoutFrom(a, cur, ptrIdx);
      ghost var first := cur == 0;
      var t;
      t, cur, ptrIdx := InitializerStep(a, cc, cur, ptrIdx);
      if t.Panic? {
        InitsPanics(a, out, w, first, cc);
        return Panic(t.reason);
      }
      InitsStep(a, out, w, first, cc);
      out := out + sep + t.value.0;
      cc := t.value.1;
    }
    r := Ok((out, cc));
    assert out + "" == out;
  }

  /** `build_declaration`. */
  method BuildDeclaration(a: StaticAllocation, c: ReprContext) returns (r: Result<(string, ReprContext)>)
    ensures r == DeclarationText(a, c)
  {
    var defs := BuildDefinitions(a, c);
    var head := "struct {" + NewlineText(c) + defs + "} " + a.name + " = {" + NewlineText(c);
    var inits := BuildInitializers(a, c);
    if inits.Panic? {
      return Panic(inits.reason);
    }
    r := Ok((head + inits.value.0 + NewlineText(inits.value.1) + "};", inits.value.1));
  }

  // Steps the loops rely on.

  /** One step of the walk: the segment at `cur`, then the walk from
      past it. */
  lemma WalkStep(a: StaticAllocation, cur: nat, p: nat)
    requires cur < |a.bytes|
    ensures var next := NextPtrOffset(a, p);
      var w := LayoutFrom(a, cur, p);
      if cur < next then |w| > 0 && w[0] == ByteRun(cur, next - cur) && w[1..] == LayoutFrom(a, next, p)
      else |w| > 0 && w[0] == PtrSlot(p) && w[1..] == LayoutFrom(a, cur + PTR_SIZE, p + 1)
  {
  }

  /** One step of the first loop: the first segment's line moves from the
      text still to write to the text written. */
  lemma DefsStep(a: StaticAllocation, out: string, segs: seq<Segment>, num: nat, c: ReprContext)
    requires |segs| > 0
    ensures out + DefsText(a, segs, num, c) ==
      (out + DefLine(a, segs[0], num, c)) + DefsText(a, segs[1..], num + (if segs[0].ByteRun? then 1 else 0), c)
  {
  }

  /** One step of the second loop: the first element, after its
      separator, moves from the text still to come to the text written. */
  lemma InitsStep(a: StaticAllocation, out: string, segs: seq<Segment>, first: bool, c: ReprContext)
    requires |segs| > 0 && InitItem(a, segs[0], c).Ok?
    ensures var (item, c1) := InitItem(a, segs[0], c).value;
      Behind(out, InitsText(a, segs, first, c)) ==
      Behind(out + (if first then "" else "," + NewlineText(c)) + item, InitsText(a, segs[1..], false, c1))
  {
    var (item, c1) := InitItem(a, segs[0], c).value;
    var sep := if first then "" else "," + NewlineText(c);
    var rest := InitsText(a, segs[1..], false, c1);
    if rest.Ok? {
      assert out + (sep + item + rest.value.0) == (out + sep + item) + rest.value.0;
    }
  }

  /** An element that fails makes the rest of the initializer fail with it. */
  lemma InitsPanics(a: StaticAllocation, out: string, segs: seq<Segment>, first: bool, c: ReprContext)
    requires |segs| > 0 && InitItem(a, segs[0], c).Panic?
    ensures Behind(out, InitsText(a, segs, first, c)) == InitItem(a, segs[0], c)
  {
  }

  /** One more byte in the list. */
  lemma ByteListStep(bs: seq<Byte>, from: nat, i: nat)
    requires from <= i < |bs|
    ensures ByteListText(bs[from..i + 1]) ==
      ByteListText(bs[from..i]) + (if i > from then ", " else "") + ByteText(bs[i])
  {
    var s := bs[from..i + 1];
    assert s[..|s| - 1] == bs[from..i];
    assert s[|s| - 1] == bs[i];
  }

  // What the walk guarantees.

  /** Every step of the walk moves forward: a byte run is never empty,
      starts where the walk stands or later, and a pointer member is only
      taken while a relocation is left, so `ptrs[ptr_idx]` is always in
      range. The pointer members are the relocations from `p` on, one
      after the other, with none skipped. */
  lemma {:induction false} WalkInRange(a: StaticAllocation, cur: nat, p: nat)
    requires p <= |a.ptrs|
    ensures var w := LayoutFrom(a, cur, p);
      forall s :: s in w ==> if s.ByteRun? then 0 < s.len && cur <= s.from else p <= s.idx < |a.ptrs|
    ensures var pi := PtrIndices(LayoutFrom(a, cur, p));
      p + |pi| <= |a.ptrs| && forall i :: 0 <= i < |pi| ==> pi[i] == p + i
    decreases |a.bytes| - cur
  {
    if cur < |a.bytes| {
      var next := NextPtrOffset(a, p);
      var w := LayoutFrom(a, cur, p);
      if cur < next {
        WalkInRange(a, next, p);
        assert w == [ByteRun(cur, next - cur)] + LayoutFrom(a, next, p);
        assert w[1..] == LayoutFrom(a, next, p);
      } else {
        assert p < |a.ptrs|;
        WalkInRange(a, cur + PTR_SIZE, p + 1);
        assert w[1..] == LayoutFrom(a, cur + PTR_SIZE, p + 1);
      }
    }
  }

  /** On a well-formed allocation the walk from `cur` (not past the next
      relocation) tiles the rest of the bytes exactly: the members' widths
      add up to what is left, every relocation from `p` on gets its
      pointer member, and no byte run reaches past the end. */
  lemma {:induction false} WalkTiles(a: StaticAllocation, cur: nat, p: nat)
    requires WellFormed(a) && cur <= |a.bytes| && p <= |a.ptrs|
    requires p < |a.ptrs| ==> cur <= a.ptrs[p].0
    ensures var w := LayoutFrom(a, cur, p);
      Width(w) == |a.bytes| - cur && |PtrIndices(w)| == |a.ptrs| - p &&
      forall s :: s in w && s.ByteRun? ==> s.from + s.len <= |a.bytes|
    decreases |a.bytes| - cur
  {
    var w := LayoutFrom(a, cur, p);
    if cur < |a.bytes| {
      var next := NextPtrOffset(a, p);
      if cur < next {
        WalkTiles(a, next, p);
        assert w[1..] == LayoutFrom(a, next, p);
      } else {
        assert p < |a.ptrs| && cur == a.ptrs[p].0;
        if p + 1 < |a.ptrs| {
          assert a.ptrs[p].0 + PTR_SIZE <= a.ptrs[p + 1].0;
        }
        WalkTiles(a, cur + PTR_SIZE, p + 1);
        assert w[1..] == LayoutFrom(a, cur + PTR_SIZE, p + 1);
      }
    }
  }

  /** The struct of a well-formed allocation: its members cover exactly
      the allocation's bytes, hold one pointer per relocation in the
      relocations' order, and every byte run's initializer can be read
      from the bytes. */
  lemma LayoutTiles(a: StaticAllocation)
    requires WellFormed(a)
    ensures Width(Layout(a)) == |a.bytes|
    ensures PtrIndices(Layout(a)) == seq(|a.ptrs|, k => k)
    ensures forall s :: s in Layout(a) && s.ByteRun? ==> BytesInitText(a, s.from, s.from + s.len).Ok?
  {
    WalkInRange(a, 0, 0);
    WalkTiles(a, 0, 0);
  }

  /** Both loops never index the relocations out of range: every pointer
      member of any allocation's struct names a relocation. */
  lemma LayoutPointersInRange(a: StaticAllocation)
    ensures forall s :: s in Layout(a) && s.PtrSlot? ==> s.idx < |a.ptrs|
    ensures forall s :: s in Layout(a) && s.PtrSlot? ==>
      PtrDefinition(a, s.idx) == "void* ptr_" + NatToString(s.idx) + "; /* offset " + NatToString(a.ptrs[s.idx].0) + " */"
  {
    WalkInRange(a, 0, 0);
  }

  /** Four bytes, a relocation at offset 4, one more byte: a run of four,
      the pointer, and a run of one, the runs named `bytes_0` and
      `bytes_1`. */
  lemma LayoutExample()
    ensures var a := StaticAllocation("alloc_0", [1, 2, 3, 4, 0, 0, 0, 0, 0, 0, 0, 0, 5], [(4, Constant("f"))]);
      Layout(a) == [ByteRun(0, 4), PtrSlot(0), ByteRun(12, 1)] &&
      BytesDefinition(1, 1) == "int8_t bytes_1[1];"
  {
    var a := StaticAllocation("alloc_0", [1, 2, 3, 4, 0, 0, 0, 0, 0, 0, 0, 0, 5], [(4, Constant("f"))]);
    assert LayoutFrom(a, 12, 1) == [ByteRun(12, 1)] + LayoutFrom(a, 13, 1);
    assert LayoutFrom(a, 4, 0) == [PtrSlot(0)] + LayoutFrom(a, 12, 1);
  }

  /** A run's initializer: each byte as `0x` and two upper-case hex
      digits, separated by `, `, in braces. */
  lemma BytesInitExample()
    ensures BytesInitText(StaticAllocation("s", [0x1F, 0xA0], []), 0, 2) == Ok("{0x1F, 0xA0}")
  {
    var bs: seq<Byte> := [0x1F, 0xA0];
    assert HexDigit(1, true) == '1' && HexDigit(15, true) == 'F' && HexDigit(10, true) == 'A' && HexDigit(0, true) == '0';
    assert bs[0..2] == bs && bs[..1] == [0x1F];
    assert ByteText(0x1F) == "0x1F" && ByteText(0xA0) == "0xA0";
    assert ByteListText(bs) == "0x1F, 0xA0";
    assert "{" + ByteListText(bs) + "}" == "{0x1F, 0xA0}";
  }
}
