/**
 * The DER reader: `readTlv` and `parse`, against the definite-length encoding of
 * sections 8.1.2, 8.1.3 and 10.1 of ITU-T X.690.
 */
module Der {
  import opened Wrappers
  import opened Bytes

  datatype DerError =
    | TruncatedAtTag
    | TruncatedAtLength
    | UnsupportedLengthForm(count: nat)
    | TruncatedLongLength
    | ValueOverrun
    | NeverEnds(at: nat)  // the child loop of `parse` came to a child that ends where it starts
    | StepsBack(at: nat)  // ... or before, which the model does not follow
  {
    predicate Stuck?() { NeverEnds? || StepsBack? }
  }

  datatype Tlv = Tlv(tag: Byte, length: int, valueStart: nat) {
    function End(): int { valueStart + length }
  }

  const INT32_TOP := 0x8000_0000

  /** The 32-bit integers of JavaScript's shift and or. */
  function ToInt32(x: int): (r: int)
    ensures -INT32_TOP <= r < INT32_TOP
    ensures 0 <= x < INT32_TOP ==> r == x
    ensures INT32_TOP <= x < 2 * INT32_TOP ==> r == x - 2 * INT32_TOP
  {
    var m := x % (2 * INT32_TOP);
    if m >= INT32_TOP then m - 2 * INT32_TOP else m
  }

  predicate IsConstructed(tag: Byte) {
    tag / 32 % 2 == 1
  }

  // ---------------------------------------------------------------- one header

  function WithLength(buffer: seq<Byte>, tag: Byte, length: int, valueStart: nat): (r: Result<Tlv, DerError>)
    ensures r.Ok? ==> r.value.End() <= |buffer|
    ensures r.Err? ==> !r.error.Stuck?()
  {
    if valueStart + length > |buffer| then Err(ValueOverrun) else Ok(Tlv(tag, length, valueStart))
  }

  /** What `readTlv` finds at `offset`. */
  function Header(buffer: seq<Byte>, offset: nat): (r: Result<Tlv, DerError>)
    ensures r.Ok? ==>
              && offset + 2 <= r.value.valueStart <= |buffer| && r.value.End() <= |buffer|
              && r.value.tag == buffer[offset]
    ensures r.Err? ==> !r.error.Stuck?()
  {
    if offset >= |buffer| then Err(TruncatedAtTag)
    else if offset + 1 >= |buffer| then Err(TruncatedAtLength)
    else
      var first: int := buffer[offset + 1];
      if first < 128 then WithLength(buffer, buffer[offset], first, offset + 2)
      else
        var count := first - 128;
        var valueStart := offset + 2 + count;
        if count == 0 || count > 4 then Err(UnsupportedLengthForm(count))
        else if valueStart > |buffer| then Err(TruncatedLongLength)
        else WithLength(buffer, buffer[offset], ToInt32(BigEndian(buffer[offset + 2..valueStart])), valueStart)
  }

  method ReadTlv(buffer: seq<Byte>, offset: nat) returns (r: Result<Tlv, DerError>)
    ensures r == Header(buffer, offset)
  {
    hide ToInt32, BigEndian;
    if offset >= |buffer| {
      return Err(TruncatedAtTag);
    }
    var tag := buffer[offset];
    var cursor := offset + 1;
    if cursor >= |buffer| {
      return Err(TruncatedAtLength);
    }
    var length: int := buffer[cursor];
    cursor := cursor + 1;
    if length >= 128 {
      var count := length - 128;
      if count == 0 || count > 4 {
        return Err(UnsupportedLengthForm(count));
      }
      if cursor + count > |buffer| {
        return Err(TruncatedLongLength);
      }
      length := 0;
      var i := 0;
      NoDigits();
      assert buffer[offset + 2..cursor] == [];
      while i < count
        invariant 0 <= i <= count && cursor == offset + 2 + i
        invariant length == ToInt32(BigEndian(buffer[offset + 2..cursor]))
      {
        ShiftInOneByte(buffer[offset + 2..cursor], buffer[cursor]);
        assert buffer[offset + 2..cursor] + [buffer[cursor]] == buffer[offset + 2..cursor + 1];
        length := ToInt32(length * 256) + buffer[cursor];
        cursor := cursor + 1;
        i := i + 1;
      }
    }
    if cursor + length > |buffer| {
      return Err(ValueOverrun);
    }
    r := Ok(Tlv(tag, length, cursor));
  }

  lemma ShiftInOneByte(digits: seq<Byte>, b: Byte)
    requires |digits| <= 3
    ensures ToInt32(ToInt32(BigEndian(digits)) * 256) + b == ToInt32(BigEndian(digits + [b]))
  {
    hide ToInt32, BigEndian;
    ThreeDigitsAtMost(digits);
    OneMoreDigit(digits, b);
    ShiftLaw(BigEndian(digits), b);
  }

  lemma ShiftLaw(x: nat, b: Byte)
    requires x < 0x100_0000
    ensures ToInt32(ToInt32(x) * 256) + b == ToInt32(x * 256 + b)
  {
  }

  // ------------------------------------------------------------------ the tree

  /** A parsed node; `children` is empty for a primitive. */
  datatype Node = Node(tag: Byte, start: nat, valueStart: nat, length: int, children: seq<Node>) {
    function End(): int { valueStart + length }
  }

  function Parse(buffer: seq<Byte>, offset: nat): (r: Result<Node, DerError>)
    ensures r.Ok? ==>
              && r.value.start == offset
              && Header(buffer, offset) == Ok(Tlv(r.value.tag, r.value.length, r.value.valueStart))
    decreases |buffer| - offset, 1
  {
    match Header(buffer, offset)
    case Err(e) => Err(e)
    case Ok(tlv) =>
      if !IsConstructed(tlv.tag) then Ok(Node(tlv.tag, offset, tlv.valueStart, tlv.length, []))
      else match ParseChildren(buffer, tlv.valueStart, tlv.End())
           case Err(e) => Err(e)
           case Ok(children) => Ok(Node(tlv.tag, offset, tlv.valueStart, tlv.length, children))
  }

  /** The child loop, from `cursor` until it passes `valueEnd`. */
  function ParseChildren(buffer: seq<Byte>, cursor: nat, valueEnd: int): Result<seq<Node>, DerError>
    requires cursor <= |buffer| && valueEnd <= |buffer|
    decreases |buffer| - cursor, 2
  {
    if cursor >= valueEnd then Ok([])
    else match Parse(buffer, cursor)
         case Err(e) => Err(e)
         case Ok(child) =>
           if child.End() == cursor then Err(NeverEnds(cursor))
           else if child.End() < cursor then Err(StepsBack(cursor))
           else match ParseChildren(buffer, child.End(), valueEnd)
                case Err(e) => Err(e)
                case Ok(later) => Ok([child] + later)
  }

  function Prepended(first: seq<Node>, rest: Result<seq<Node>, DerError>): Result<seq<Node>, DerError> {
    match rest
    case Err(e) => Err(e)
    case Ok(later) => Ok(first + later)
  }

  method ParseTree(buffer: seq<Byte>, offset: nat) returns (r: Result<Node, DerError>)
    ensures r == Parse(buffer, offset)
    decreases |buffer| - offset
  {
    var header := ReadTlv(buffer, offset);
    if header.Err? {
      return Err(header.error);
    }
    var tlv := header.value;
    var children: seq<Node> := [];
    if IsConstructed(tlv.tag) {
      var cursor := tlv.valueStart;
      ghost var all := ParseChildren(buffer, cursor, tlv.End());
      assert all.Ok? ==> [] + all.value == all.value;
      while cursor < tlv.End()
        invariant tlv.valueStart <= cursor <= |buffer|
        invariant ParseChildren(buffer, tlv.valueStart, tlv.End())
               == Prepended(children, ParseChildren(buffer, cursor, tlv.End()))
      {
        var child := ParseTree(buffer, cursor);
        if child.Err? {
          return Err(child.error);
        }
        if child.value.End() == cursor {
          return Err(NeverEnds(cursor));
        }
        if child.value.End() < cursor {
          return Err(StepsBack(cursor));
        }
        ghost var later := ParseChildren(buffer, child.value.End(), tlv.End());
        assert later.Ok? ==> children + ([child.value] + later.value) == children + [child.value] + later.value;
        children := children + [child.value];
        cursor := child.value.End();
      }
      assert children + [] == children;
    }
    r := Ok(Node(tlv.tag, offset, tlv.valueStart, tlv.length, children));
  }

  // ---------------------------------------------------------------- the encoder

  datatype Class = Universal | Application | ContextSpecific | Private

  datatype Tree =
    | Primitive(kind: Class, number: nat, content: seq<Byte>)
    | Constructed(kind: Class, number: nat, parts: seq<Tree>)

  /** Section 8.1.2.2: the class in bits 8 and 7. */
  function ClassBits(c: Class): nat {
    match c
    case Universal => 0
    case Application => 1
    case ContextSpecific => 2
    case Private => 3
  }

  /** Section 8.1.2: bit 6 is set for a constructed encoding, and the number is in the five below. */
  function Identifier(t: Tree): Byte
    requires t.number < 31
  {
    ClassBits(t.kind) * 64 + (if t.Constructed? then 32 else 0) + t.number
  }

  /** The reader sees the shape in the identifier octet. */
  lemma IdentifierShowsShape(t: Tree)
    requires t.number < 31
    ensures IsConstructed(Identifier(t)) <==> t.Constructed?
    ensures Identifier(t) % 32 == t.number && Identifier(t) / 64 == ClassBits(t.kind)
  {
  }

  /**
   * Tag numbers below 31, which take one octet, and lengths that fit 31 bits. The
   * reader takes any first octet for a whole identifier.
   */
  predicate Encodable(t: Tree)
    decreases t, 1
  {
    match t
    case Primitive(_, number, content) => number < 31 && |content| < INT32_TOP
    case Constructed(_, number, parts) => number < 31 && AllEncodable(parts) && |EncodeAll(parts)| < INT32_TOP
  }

  predicate AllEncodable(ts: seq<Tree>)
    decreases ts, 0
  {
    ts == [] || (Encodable(ts[0]) && AllEncodable(ts[1..]))
  }

  /** Section 10.1: the short form below 128, else the fewest octets. */
  function EncodeLength(n: nat): seq<Byte>
    requires n < INT32_TOP
  {
    DigitsAreFew(n, 4);
    PowersOf256();
    if n < 128 then [n] else [128 + |Digits(n)|] + Digits(n)
  }

  /** Identifier, length and contents octets. */
  function Wrap(tag: Byte, contents: seq<Byte>): (s: seq<Byte>)
    requires |contents| < INT32_TOP
    ensures |s| == HeaderSize(|contents|) + |contents| > 0
  {
    [tag] + EncodeLength(|contents|) + contents
  }

  function HeaderSize(n: nat): nat
    requires n < INT32_TOP
  {
    1 + |EncodeLength(n)|
  }

  function Contents(t: Tree): seq<Byte>
    requires Encodable(t)
    decreases t, 2
  {
    if t.Primitive? then t.content else EncodeAll(t.parts)
  }

  function Encode(t: Tree): (s: seq<Byte>)
    requires Encodable(t)
    ensures s != []
    decreases t, 3
  {
    Wrap(Identifier(t), Contents(t))
  }

  function EncodeAll(ts: seq<Tree>): seq<Byte>
    requires AllEncodable(ts)
    decreases ts, 1
  {
    if ts == [] then [] else Encode(ts[0]) + EncodeAll(ts[1..])
  }

  /** The node `parse` should return for `t` encoded at `offset`. */
  function Built(t: Tree, offset: nat): (node: Node)
    requires Encodable(t)
    ensures node.start == offset
    decreases t, 1
  {
    var valueStart := offset + HeaderSize(|Contents(t)|);
    Node(Identifier(t), offset, valueStart, |Contents(t)|, if t.Primitive? then [] else BuiltAll(t.parts, valueStart))
  }

  function BuiltAll(ts: seq<Tree>, offset: nat): seq<Node>
    requires AllEncodable(ts)
    decreases ts, 0
  {
    if ts == [] then [] else [Built(ts[0], offset)] + BuiltAll(ts[1..], offset + |Encode(ts[0])|)
  }

  // ------------------------------------------------------- parse inverts encode

  /** `piece` stands at `offset`, with anything before and after it. */
  predicate At(buffer: seq<Byte>, offset: nat, piece: seq<Byte>) {
    offset + |piece| <= |buffer| && buffer[offset..offset + |piece|] == piece
  }

  lemma AtParts(buffer: seq<Byte>, offset: nat, first: seq<Byte>, second: seq<Byte>)
    requires At(buffer, offset, first + second)
    ensures At(buffer, offset, first) && At(buffer, offset + |first|, second)
  {
    var all := buffer[offset..offset + |first| + |second|];
    assert buffer[offset..offset + |first|] == all[..|first|] == first;
    assert buffer[offset + |first|..offset + |first| + |second|] == all[|first|..] == second;
  }

  lemma HeaderOfShortForm(buffer: seq<Byte>, offset: nat, tag: Byte, n: nat)
    requires n < 128 && At(buffer, offset, [tag, n]) && offset + 2 + n <= |buffer|
    ensures Header(buffer, offset) == Ok(Tlv(tag, n, offset + 2))
  {
  }

  lemma HeaderOfLongForm(buffer: seq<Byte>, offset: nat, count: nat, n: nat)
    requires 1 <= count <= 4 && offset + 2 + count + n <= |buffer|
    requires buffer[offset + 1] == 128 + count
    requires n == BigEndian(buffer[offset + 2..offset + 2 + count]) < INT32_TOP
    ensures Header(buffer, offset) == Ok(Tlv(buffer[offset], n, offset + 2 + count))
  {
  }

  /** The header of an encoding is read back, and the contents follow it. */
  lemma HeaderInvertsWrap(buffer: seq<Byte>, offset: nat, tag: Byte, contents: seq<Byte>)
    requires |contents| < INT32_TOP && At(buffer, offset, Wrap(tag, contents))
    ensures Header(buffer, offset) == Ok(Tlv(tag, |contents|, offset + HeaderSize(|contents|)))
    ensures At(buffer, offset + HeaderSize(|contents|), contents)
  {
    var n := |contents|;
    AtParts(buffer, offset, [tag] + EncodeLength(n), contents);
    if n < 128 {
      assert [tag] + EncodeLength(n) == [tag, n];
      HeaderOfShortForm(buffer, offset, tag, n);
    } else {
      LongFormStands(buffer, offset, tag, n);
      HeaderOfLongForm(buffer, offset, |Digits(n)|, n);
    }
  }

  lemma LongFormStands(buffer: seq<Byte>, offset: nat, tag: Byte, n: nat)
    requires 128 <= n < INT32_TOP && At(buffer, offset, [tag] + EncodeLength(n))
    ensures 1 <= |Digits(n)| <= 4 && offset + 2 + |Digits(n)| <= |buffer|
    ensures buffer[offset] == tag && buffer[offset + 1] == 128 + |Digits(n)|
    ensures BigEndian(buffer[offset + 2..offset + 2 + |Digits(n)|]) == n
  {
    hide BigEndian, Digits, Power256;
    DigitsAreFew(n, 4);
    DigitsAreFew(n, 0);
    DigitsSpell(n);
    PowersOf256();
    var count := |Digits(n)|;
    assert [tag] + EncodeLength(n) == [tag, 128 + count] + Digits(n);
    AtParts(buffer, offset, [tag, 128 + count], Digits(n));
    var field := buffer[offset..offset + 2];
    assert field[0] == buffer[offset] && field[1] == buffer[offset + 1];
  }

  /** `parse` on a header already read. */
  lemma ParseAfterHeader(buffer: seq<Byte>, offset: nat, tag: Byte, n: nat, valueStart: nat, children: seq<Node>)
    requires Header(buffer, offset) == Ok(Tlv(tag, n, valueStart))
    requires if IsConstructed(tag) then ParseChildren(buffer, valueStart, valueStart + n) == Ok(children)
             else children == []
    ensures Parse(buffer, offset) == Ok(Node(tag, offset, valueStart, n, children))
  {
  }

  lemma NoChildren(buffer: seq<Byte>, offset: nat)
    requires offset <= |buffer|
    ensures ParseChildren(buffer, offset, offset) == Ok([])
  {
  }

  lemma ChildrenAfterFirst(buffer: seq<Byte>, cursor: nat, next: nat, valueEnd: nat, child: Node, later: seq<Node>)
    requires cursor < next <= valueEnd <= |buffer| && child.End() == next
    requires Parse(buffer, cursor) == Ok(child) && ParseChildren(buffer, next, valueEnd) == Ok(later)
    ensures ParseChildren(buffer, cursor, valueEnd) == Ok([child] + later)
  {
  }

  /** `parse` gives back the encoded tree and its exact end, whatever surrounds it. */
  lemma {:induction false} ParseInvertsEncode(buffer: seq<Byte>, offset: nat, t: Tree)
    requires Encodable(t) && At(buffer, offset, Encode(t))
    ensures Parse(buffer, offset) == Ok(Built(t, offset))
    ensures Built(t, offset).End() == offset + |Encode(t)|
    decreases t, 1
  {
    hide Header, Parse, ParseChildren, HeaderSize;
    var valueStart := offset + HeaderSize(|Contents(t)|);
    HeaderInvertsWrap(buffer, offset, Identifier(t), Contents(t));
    IdentifierShowsShape(t);
    if t.Constructed? {
      ParseInvertsEncodeAll(buffer, valueStart, t.parts);
    }
    ParseAfterHeader(buffer, offset, Identifier(t), |Contents(t)|, valueStart, Built(t, offset).children);
  }

  lemma BuiltThenRest(ts: seq<Tree>, offset: nat)
    requires AllEncodable(ts) && ts != []
    ensures BuiltAll(ts, offset) == [Built(ts[0], offset)] + BuiltAll(ts[1..], offset + |Encode(ts[0])|)
  {
  }

  lemma {:induction false} ParseInvertsEncodeAll(buffer: seq<Byte>, offset: nat, ts: seq<Tree>)
    requires AllEncodable(ts) && At(buffer, offset, EncodeAll(ts))
    ensures ParseChildren(buffer, offset, offset + |EncodeAll(ts)|) == Ok(BuiltAll(ts, offset))
    decreases ts, 0
  {
    hide Header, Parse, ParseChildren, Encode, Encodable, Built;
    if ts == [] {
      NoChildren(buffer, offset);
    } else {
      var first, rest := Encode(ts[0]), EncodeAll(ts[1..]);
      assert EncodeAll(ts) == first + rest;
      AtParts(buffer, offset, first, rest);
      var next := offset + |first|;
      assert Parse(buffer, offset) == Ok(Built(ts[0], offset)) && Built(ts[0], offset).End() == next by {
        ParseInvertsEncode(buffer, offset, ts[0]);
      }
      assert ParseChildren(buffer, next, next + |rest|) == Ok(BuiltAll(ts[1..], next)) by {
        ParseInvertsEncodeAll(buffer, next, ts[1..]);
      }
      ChildrenAfterFirst(buffer, offset, next, next + |rest|, Built(ts[0], offset), BuiltAll(ts[1..], next));
      BuiltThenRest(ts, offset);
    }
  }

  // -------------------------------------------------- where parsed nodes stand

  /** A four-byte length with its top bit set: 32-bit arithmetic makes it negative. */
  predicate WrapsAt(buffer: seq<Byte>, offset: nat) {
    offset + 6 <= |buffer| && buffer[offset + 1] == 132 && buffer[offset + 2] >= 128
  }

  lemma NegativeLengthExactly(buffer: seq<Byte>, offset: nat)
    ensures Header(buffer, offset).Ok? && Header(buffer, offset).value.length < 0 <==> WrapsAt(buffer, offset)
  {
    if offset + 2 <= |buffer| && buffer[offset + 1] >= 128 {
      var count := buffer[offset + 1] - 128;
      if 1 <= count <= 4 && offset + 2 + count <= |buffer| {
        var digits := buffer[offset + 2..offset + 2 + count];
        PowersOf256();
        BigEndianBound(digits);
        if count == 4 {
          FourDigits(digits);
        }
      }
    }
  }

  /** The length field of a wrapped header, as the unsigned number it spells. */
  function WrappedLength(buffer: seq<Byte>, offset: nat): nat
    requires WrapsAt(buffer, offset)
  {
    BigEndian(buffer[offset + 2..offset + 6])
  }

  /**
   * Exactly which headers hold the reader up: a wrapped length of -6 makes the
   * node end where it starts, and any smaller one before; from -5 up to -1 the
   * reader still advances.
   */
  lemma ReaderAdvancesExactly(buffer: seq<Byte>, offset: nat)
    requires Header(buffer, offset).Ok?
    ensures Header(buffer, offset).value.End() == offset
       <==> WrapsAt(buffer, offset) && WrappedLength(buffer, offset) == 0xFFFF_FFFA
    ensures Header(buffer, offset).value.End() < offset
       <==> WrapsAt(buffer, offset) && WrappedLength(buffer, offset) < 0xFFFF_FFFA
  {
    NegativeLengthExactly(buffer, offset);
    if WrapsAt(buffer, offset) {
      var digits := buffer[offset + 2..offset + 6];
      BigEndianBound(digits);
      PowersOf256();
      FourDigits(digits);
      assert ToInt32(BigEndian(digits)) == BigEndian(digits) - 2 * INT32_TOP;
    }
  }

  /** Where the child loop of `parse` stands after `turns` turns, as long as it goes on and its children parse. */
  function LoopCursor(buffer: seq<Byte>, cursor: nat, valueEnd: int, turns: nat): Option<nat>
    decreases turns
  {
    if cursor >= valueEnd then None
    else if turns == 0 then Some(cursor)
    else match Parse(buffer, cursor)
         case Err(_) => None
         case Ok(child) => if child.End() < 0 then None else LoopCursor(buffer, child.End(), valueEnd, turns - 1)
  }

  /** Each turn goes on at the end of the child, anywhere in the buffer, until that is past the end of the value. */
  lemma LoopTurns(buffer: seq<Byte>, cursor: nat, valueEnd: int, turns: nat)
    requires cursor < valueEnd && Parse(buffer, cursor).Ok? && 0 <= Parse(buffer, cursor).value.End()
    ensures LoopCursor(buffer, cursor, valueEnd, turns + 1)
         == LoopCursor(buffer, Parse(buffer, cursor).value.End(), valueEnd, turns)
  {
  }

  lemma {:induction false} LoopAdds(buffer: seq<Byte>, cursor: nat, valueEnd: int, first: nat, more: nat)
    ensures var after := LoopCursor(buffer, cursor, valueEnd, first);
            (LoopCursor(buffer, cursor, valueEnd, first + more)
             == if after.None? then None else LoopCursor(buffer, after.value, valueEnd, more))
    decreases first
  {
    hide Parse;
    if cursor < valueEnd && first > 0 && Parse(buffer, cursor).Ok? && Parse(buffer, cursor).value.End() >= 0 {
      LoopAdds(buffer, Parse(buffer, cursor).value.End(), valueEnd, first - 1, more);
    }
  }

  lemma {:induction false} CycleGoesOn(buffer: seq<Byte>, cursor: nat, valueEnd: int, period: nat, turns: nat)
    requires period > 0 && LoopCursor(buffer, cursor, valueEnd, period) == Some(cursor)
    ensures LoopCursor(buffer, cursor, valueEnd, turns).Some?
    decreases turns
  {
    hide Parse;
    if turns <= period {
      LoopAdds(buffer, cursor, valueEnd, turns, period - turns);
    } else {
      LoopAdds(buffer, cursor, valueEnd, period, turns - period);
      CycleGoesOn(buffer, cursor, valueEnd, period, turns - period);
    }
  }

  /** After some turn the loop is where it was after an earlier one, within as many turns as there are bytes. */
  predicate Recurs(buffer: seq<Byte>, cursor: nat, valueEnd: int) {
    exists i: nat, j: nat :: i < j <= |buffer| && Meets(buffer, cursor, valueEnd, i, j)
  }

  predicate Meets(buffer: seq<Byte>, cursor: nat, valueEnd: int, i: nat, j: nat) {
    && LoopCursor(buffer, cursor, valueEnd, i).Some?
    && LoopCursor(buffer, cursor, valueEnd, i) == LoopCursor(buffer, cursor, valueEnd, j)
  }

  lemma {:induction false} CursorsBelow(buffer: seq<Byte>, cursor: nat, valueEnd: int, turns: nat)
    ensures var after := LoopCursor(buffer, cursor, valueEnd, turns);
            after.Some? ==> after.value < valueEnd
    decreases turns
  {
    if cursor < valueEnd && turns > 0 && Parse(buffer, cursor).Ok? && Parse(buffer, cursor).value.End() >= 0 {
      CursorsBelow(buffer, Parse(buffer, cursor).value.End(), valueEnd, turns - 1);
    }
  }

  /** The first `n` cursors of a loop that neither ends nor recurs are `n` different ones. */
  lemma {:induction false} DistinctCursors(buffer: seq<Byte>, cursor: nat, valueEnd: int, n: nat)
    returns (seen: set<nat>)
    requires forall k: nat :: k < n ==> LoopCursor(buffer, cursor, valueEnd, k).Some?
    requires forall i: nat, j: nat :: i < j < n ==> !Meets(buffer, cursor, valueEnd, i, j)
    ensures |seen| == n
    ensures forall x :: x in seen ==> exists k: nat :: k < n && LoopCursor(buffer, cursor, valueEnd, k) == Some(x)
    ensures forall x :: x in seen ==> x < valueEnd
  {
    seen := {};
    for k := 0 to n
      invariant |seen| == k
      invariant forall x :: x in seen ==> exists i: nat :: i < k && LoopCursor(buffer, cursor, valueEnd, i) == Some(x)
      invariant forall x :: x in seen ==> x < valueEnd
    {
      var next := LoopCursor(buffer, cursor, valueEnd, k).value;
      CursorsBelow(buffer, cursor, valueEnd, k);
      forall i: nat | i < k ensures LoopCursor(buffer, cursor, valueEnd, i) != Some(next) {
        assert !Meets(buffer, cursor, valueEnd, i, k);
      }
      seen := seen + {next};
    }
  }

  lemma {:induction false} FewBelow(seen: set<nat>, bound: nat)
    requires forall x :: x in seen ==> x < bound
    ensures |seen| <= bound
    decreases bound
  {
    if x :| x in seen {
      FewBelow(seen - {bound - 1}, bound - 1);
    }
  }

  /**
   * The child loop, as long as its children parse, goes on for ever exactly when
   * its cursor recurs, and that shows within as many turns as there are bytes.
   */
  ghost predicate GoesOnForEver(buffer: seq<Byte>, cursor: nat, valueEnd: int) {
    forall turns: nat :: LoopCursor(buffer, cursor, valueEnd, turns).Some?
  }

  lemma RecurringGoesOn(buffer: seq<Byte>, cursor: nat, valueEnd: int, i: nat, j: nat)
    requires i < j && Meets(buffer, cursor, valueEnd, i, j)
    ensures GoesOnForEver(buffer, cursor, valueEnd)
  {
    var at := LoopCursor(buffer, cursor, valueEnd, i).value;
    LoopAdds(buffer, cursor, valueEnd, i, j - i);
    forall turns: nat ensures LoopCursor(buffer, cursor, valueEnd, turns).Some? {
      CycleGoesOn(buffer, at, valueEnd, j - i, turns);
      LoopAdds(buffer, cursor, valueEnd, i, turns);
      LoopAdds(buffer, cursor, valueEnd, turns, i);
    }
  }

  lemma GoingOnRecurs(buffer: seq<Byte>, cursor: nat, valueEnd: int)
    requires valueEnd <= |buffer| && GoesOnForEver(buffer, cursor, valueEnd)
    ensures Recurs(buffer, cursor, valueEnd)
  {
    if !Recurs(buffer, cursor, valueEnd) {
      var seen := DistinctCursors(buffer, cursor, valueEnd, |buffer| + 1);
      FewBelow(seen, |buffer|);
    }
  }

  /**
   * The child loop, as long as its children parse, goes on for ever exactly when
   * its cursor recurs, and that shows within as many turns as there are bytes.
   */
  lemma LoopsForEverExactly(buffer: seq<Byte>, cursor: nat, valueEnd: int)
    requires valueEnd <= |buffer|
    ensures GoesOnForEver(buffer, cursor, valueEnd) <==> Recurs(buffer, cursor, valueEnd)
  {
    if Recurs(buffer, cursor, valueEnd) {
      var i: nat, j: nat :| i < j <= |buffer| && Meets(buffer, cursor, valueEnd, i, j);
      RecurringGoesOn(buffer, cursor, valueEnd, i, j);
    }
    if GoesOnForEver(buffer, cursor, valueEnd) {
      GoingOnRecurs(buffer, cursor, valueEnd);
    }
  }

  /** A node starts with its tag, ends inside the buffer, and its children run end to end from its contents' start. */
  predicate LaidOut(buffer: seq<Byte>, node: Node)
    decreases node, 1
  {
    && node.start + 2 <= node.valueStart <= |buffer|
    && node.End() <= |buffer|
    && buffer[node.start] == node.tag
    && (node.length < 0 ==> WrapsAt(buffer, node.start))
    && if IsConstructed(node.tag) then Chained(buffer, node.children, node.valueStart, node.End())
       else node.children == []
  }

  predicate Chained(buffer: seq<Byte>, children: seq<Node>, cursor: nat, valueEnd: int)
    decreases children, 0
  {
    if children == [] then cursor >= valueEnd
    else
      && children[0].start == cursor < valueEnd
      && cursor < children[0].End()
      && LaidOut(buffer, children[0])
      && Chained(buffer, children[1..], children[0].End(), valueEnd)
  }

  /** At a header that holds the reader up, and as it says. */
  predicate Holds(buffer: seq<Byte>, e: DerError)
    requires e.Stuck?()
  {
    && Parse(buffer, e.at).Ok?
    && WrapsAt(buffer, e.at)
    && if e.NeverEnds? then WrappedLength(buffer, e.at) == 0xFFFF_FFFA && Parse(buffer, e.at).value.End() == e.at
       else WrappedLength(buffer, e.at) < 0xFFFF_FFFA && Parse(buffer, e.at).value.End() < e.at
  }

  /**
   * Every result of `parse` is laid out so. Its loop fails to advance only at a
   * header of the kinds above; at the first kind it stands still for ever.
   */
  lemma {:induction false} ParsedIsLaidOut(buffer: seq<Byte>, offset: nat)
    ensures match Parse(buffer, offset)
            case Ok(node) => LaidOut(buffer, node)
            case Err(e) => e.Stuck?() ==> offset < e.at && Holds(buffer, e)
    decreases |buffer| - offset, 1
  {
    hide ToInt32, WithLength;
    NegativeLengthExactly(buffer, offset);
    if Header(buffer, offset).Ok? {
      var tlv := Header(buffer, offset).value;
      if IsConstructed(tlv.tag) {
        ChildrenAreChained(buffer, tlv.valueStart, tlv.End());
      }
    }
  }

  lemma {:induction false} ChildrenAreChained(buffer: seq<Byte>, cursor: nat, valueEnd: int)
    requires cursor <= |buffer| && valueEnd <= |buffer|
    ensures match ParseChildren(buffer, cursor, valueEnd)
            case Ok(children) => Chained(buffer, children, cursor, valueEnd)
            case Err(e) => e.Stuck?() ==> cursor <= e.at && Holds(buffer, e)
    decreases |buffer| - cursor, 2
  {
    hide Header;
    if cursor < valueEnd {
      ParsedIsLaidOut(buffer, cursor);
      var child := Parse(buffer, cursor);
      if child.Ok? { ReaderAdvancesExactly(buffer, cursor); }
      if child.Ok? && child.value.End() > cursor {
        ChildrenAreChained(buffer, child.value.End(), valueEnd);
      }
    }
  }

  const STANDING: seq<Byte> := [48, 6, 4, 132, 255, 255, 255, 250]
  const STEPPING: seq<Byte> := [48, 8, 4, 0, 4, 132, 255, 255, 255, 248]

  /** The length field 0xFFFFFF.. of a header that the reader wraps. */
  lemma WrappedHeader(buffer: seq<Byte>, offset: nat, low: Byte)
    requires offset + 6 <= |buffer|
    requires buffer[offset..offset + 6] == [4, 132, 255, 255, 255, low]
    requires offset + 6 - 256 + low <= |buffer|
    ensures Header(buffer, offset) == Ok(Tlv(4, low - 256, offset + 6))
  {
    hide Power256;
    var field := buffer[offset..offset + 6];
    assert field[0] == buffer[offset] && field[1] == buffer[offset + 1];
    var digits := buffer[offset + 2..offset + 6];
    assert digits == field[2..] == [255, 255, 255, low];
    FourDigits(digits);
    assert BigEndian(digits) == 0xFFFF_FF00 + low;
    assert ToInt32(BigEndian(digits)) == low - 256;
  }

  /** Inside this SEQUENCE the second header ends where it starts, so the loop reads it again without end. */
  lemma ParseCanStand()
    ensures Parse(STANDING, 0) == Err(NeverEnds(2))
    ensures GoesOnForEver(STANDING, 2, 8)
  {
    WrappedHeader(STANDING, 2, 250);
    assert Header(STANDING, 0) == Ok(Tlv(48, 6, 2));
    forall turns: nat ensures LoopCursor(STANDING, 2, 8, turns).Some? { CycleGoesOn(STANDING, 2, 8, 1, turns); }
  }

  lemma SteppingChildren()
    ensures Parse(STEPPING, 2) == Ok(Node(4, 2, 4, 0, []))
    ensures Parse(STEPPING, 4) == Ok(Node(4, 4, 10, -8, []))
  {
    WrappedHeader(STEPPING, 4, 248);
    assert Header(STEPPING, 2) == Ok(Tlv(4, 0, 4));
  }

  lemma SteppingHeader()
    ensures Header(STEPPING, 0) == Ok(Tlv(48, 8, 2))
  {
  }

  /** Here the second child ends where the first starts, and the loop reads the two in turn without end. */
  lemma ParseCanStepInCircles()
    ensures Parse(STEPPING, 0) == Err(StepsBack(4))
    ensures GoesOnForEver(STEPPING, 2, 10)
  {
    hide Header;
    SteppingHeader();
    SteppingChildren();
    assert ParseChildren(STEPPING, 4, 10) == Err(StepsBack(4));
    assert ParseChildren(STEPPING, 2, 10) == Err(StepsBack(4));
    assert LoopCursor(STEPPING, 4, 10, 1) == Some(2);
    forall turns: nat ensures LoopCursor(STEPPING, 2, 10, turns).Some? { CycleGoesOn(STEPPING, 2, 10, 2, turns); }
  }

  // --------------------------------------------- what `parse` accepts beyond DER

  /**
   * Identifiers of one octet, lengths in their shortest form, and children that end
   * exactly where their parent does.
   */
  predicate Snug(buffer: seq<Byte>, node: Node)
    decreases node, 1
  {
    && node.tag % 32 != 31
    && 0 <= node.length < INT32_TOP
    && node.valueStart == node.start + HeaderSize(node.length)
    && At(buffer, node.start, [node.tag] + EncodeLength(node.length))
    && node.End() <= |buffer|
    && if IsConstructed(node.tag) then AllSnug(buffer, node.children, node.valueStart, node.End())
       else node.children == []
  }

  predicate AllSnug(buffer: seq<Byte>, children: seq<Node>, cursor: nat, valueEnd: nat)
    decreases children, 0
  {
    if children == [] then cursor == valueEnd
    else
      && children[0].start == cursor < children[0].End() <= valueEnd
      && Snug(buffer, children[0])
      && AllSnug(buffer, children[1..], children[0].End(), valueEnd)
  }

  /**
   * What `parse` accepts is the encoding of a tree exactly when the result is snug:
   * the code also takes identifiers of more octets for one, longer length forms
   * than needed, and a last child that runs past its parent's end.
   */
  lemma ParsedIsDerExactly(buffer: seq<Byte>, offset: nat)
    requires Parse(buffer, offset).Ok?
    ensures Snug(buffer, Parse(buffer, offset).value)
       <==> exists t :: Encodable(t) && At(buffer, offset, Encode(t))
  {
    var node := Parse(buffer, offset).value;
    if Snug(buffer, node) {
      SnugEncodes(buffer, node);
      var t := TreeOf(buffer, node);
      assert Encodable(t) && At(buffer, offset, Encode(t));
    }
    if t :| Encodable(t) && At(buffer, offset, Encode(t)) {
      ParseInvertsEncode(buffer, offset, t);
      BuiltIsSnug(buffer, offset, t);
    }
  }

  lemma {:induction false} BuiltIsSnug(buffer: seq<Byte>, offset: nat, t: Tree)
    requires Encodable(t) && At(buffer, offset, Encode(t))
    ensures Snug(buffer, Built(t, offset)) && Built(t, offset).End() == offset + |Encode(t)|
    decreases t, 1
  {
    hide EncodeLength;
    var c := Contents(t);
    AtParts(buffer, offset, [Identifier(t)] + EncodeLength(|c|), c);
    IdentifierShowsShape(t);
    if t.Constructed? {
      AllBuiltAreSnug(buffer, offset + HeaderSize(|c|), t.parts);
    }
  }

  lemma {:induction false} AllBuiltAreSnug(buffer: seq<Byte>, offset: nat, ts: seq<Tree>)
    requires AllEncodable(ts) && At(buffer, offset, EncodeAll(ts))
    ensures AllSnug(buffer, BuiltAll(ts, offset), offset, offset + |EncodeAll(ts)|)
    decreases ts, 0
  {
    hide Snug, Encode, Encodable, Built;
    if ts != [] {
      AtParts(buffer, offset, Encode(ts[0]), EncodeAll(ts[1..]));
      BuiltIsSnug(buffer, offset, ts[0]);
      AllBuiltAreSnug(buffer, offset + |Encode(ts[0])|, ts[1..]);
      BuiltThenRest(ts, offset);
    }
  }

  function ClassOf(tag: Byte): (c: Class)
    ensures ClassBits(c) == tag / 64
  {
    if tag < 64 then Universal else if tag < 128 then Application else if tag < 192 then ContextSpecific else Private
  }

  function TreeOf(buffer: seq<Byte>, node: Node): Tree
    requires Snug(buffer, node)
    decreases node, 1
  {
    if IsConstructed(node.tag)
    then Constructed(ClassOf(node.tag), node.tag % 32, TreesOf(buffer, node.children, node.valueStart, node.End()))
    else Primitive(ClassOf(node.tag), node.tag % 32, buffer[node.valueStart..node.End()])
  }

  function TreesOf(buffer: seq<Byte>, children: seq<Node>, cursor: nat, valueEnd: nat): seq<Tree>
    requires AllSnug(buffer, children, cursor, valueEnd)
    decreases children, 0
  {
    if children == [] then []
    else [TreeOf(buffer, children[0])] + TreesOf(buffer, children[1..], children[0].End(), valueEnd)
  }

  lemma {:induction false} SnugEncodes(buffer: seq<Byte>, node: Node)
    requires Snug(buffer, node)
    ensures Encodable(TreeOf(buffer, node))
    ensures buffer[node.start..node.End()] == Encode(TreeOf(buffer, node))
    decreases node, 1
  {
    hide EncodeLength;
    if IsConstructed(node.tag) {
      AllSnugEncode(buffer, node.children, node.valueStart, node.End());
    }
    assert buffer[node.start..node.End()] == buffer[node.start..node.valueStart] + buffer[node.valueStart..node.End()];
  }

  lemma EncodeAllCons(t: Tree, ts: seq<Tree>)
    requires Encodable(t) && AllEncodable(ts)
    ensures AllEncodable([t] + ts) && EncodeAll([t] + ts) == Encode(t) + EncodeAll(ts)
  {
  }

  lemma {:induction false} AllSnugEncode(buffer: seq<Byte>, children: seq<Node>, cursor: nat, valueEnd: nat)
    requires valueEnd <= |buffer| && AllSnug(buffer, children, cursor, valueEnd)
    ensures AllEncodable(TreesOf(buffer, children, cursor, valueEnd))
    ensures cursor <= valueEnd && buffer[cursor..valueEnd] == EncodeAll(TreesOf(buffer, children, cursor, valueEnd))
    decreases children, 0
  {
    hide Snug, Encode, Encodable, TreeOf;
    if children != [] {
      var first := children[0];
      SnugEncodes(buffer, first);
      AllSnugEncode(buffer, children[1..], first.End(), valueEnd);
      EncodeAllCons(TreeOf(buffer, first), TreesOf(buffer, children[1..], first.End(), valueEnd));
      assert buffer[cursor..valueEnd] == buffer[cursor..first.End()] + buffer[first.End()..valueEnd];
    }
  }
}
