/**
 * BlockSystem of block-system.js without the DOM: a workspace block
 * as a record (its `data-block-type`, the text of its repeat-count
 * input if it has one, and the blocks dropped into it), the translation
 * of blocks into interpreter commands, and the workspace's block list,
 * edited in place.
 */
module Blocks {
  import opened Common
  import opened Interpreter

  // ---------------------------------------------------------------------
  // parseInt, as the ECMAScript standard defines it for an absent radix

  /** The white space and line terminators that `parseInt` skips before the number. */
  predicate IsJsSpace(c: char) {
    // tab, line feed, line tabulation, form feed, carriage return
    c == '\t' || c == '\n' || c == '\U{B}' || c == '\U{C}' || c == '\r' ||
    // the space separators: space, no-break space, ogham space mark,
    // en quad to hair space, narrow no-break space, medium mathematical
    // space, ideographic space
    c == ' ' || c == '\U{A0}' || c == '\U{1680}' || ('\U{2000}' <= c <= '\U{200A}') ||
    c == '\U{202F}' || c == '\U{205F}' || c == '\U{3000}' ||
    // line separator, paragraph separator, zero width no-break space
    c == '\U{2028}' || c == '\U{2029}' || c == '\U{FEFF}'
  }

  /** The string without its leading white space. */
  function TrimStart(s: string): (t: string)
    ensures |t| <= |s| && t == s[|s| - |t|..]
    ensures t == [] || !IsJsSpace(t[0])
    ensures forall i :: 0 <= i < |s| - |t| ==> IsJsSpace(s[i])
  {
    if s != [] && IsJsSpace(s[0]) then TrimStart(s[1..]) else s
  }

  /** The value of a digit character in base 10 or 16, if it is one. */
  function DigitValue(c: char, radix: nat): Option<nat> {
    if '0' <= c <= '9' then Some(c as nat - '0' as nat)
    else if radix == 16 && 'a' <= c <= 'f' then Some(c as nat - 'a' as nat + 10)
    else if radix == 16 && 'A' <= c <= 'F' then Some(c as nat - 'A' as nat + 10)
    else None
  }

  /** The length of the longest prefix of `s` made of digits of the radix. */
  function DigitRun(s: string, radix: nat): (n: nat)
    ensures n <= |s|
    ensures forall i :: 0 <= i < n ==> DigitValue(s[i], radix).Some?
    ensures n < |s| ==> DigitValue(s[n], radix).None?
  {
    if s != [] && DigitValue(s[0], radix).Some? then 1 + DigitRun(s[1..], radix) else 0
  }

  /** The number a string of digits denotes, most significant digit first. */
  function DigitsValue(ds: string, radix: nat): nat
    requires forall i :: 0 <= i < |ds| ==> DigitValue(ds[i], radix).Some?
  {
    if ds == [] then 0
    else DigitsValue(ds[..|ds| - 1], radix) * radix + DigitValue(ds[|ds| - 1], radix).value
  }

  /** Does the string start with `0x` or `0X`? */
  predicate HexPrefix(s: string) {
    |s| >= 2 && s[0] == '0' && (s[1] == 'x' || s[1] == 'X')
  }

  /**
   * The digits part of `parseInt`: `0x`/`0X` selects base 16, anything
   * else is base 10, and the longest run of digits that follows is read;
   * None when there is no digit at all.
   */
  function ParseDigits(u: string): Option<nat> {
    var radix: nat := if HexPrefix(u) then 16 else 10;
    var w := if HexPrefix(u) then u[2..] else u;
    var n := DigitRun(w, radix);
    if n == 0 then None else Some(DigitsValue(w[..n], radix))
  }

  /**
   * `parseInt(s)` with no radix: skip leading white space, take one
   * optional sign, then read the digits. None stands for NaN.
   */
  function ParseInt(s: string): Option<int> {
    var t := TrimStart(s);
    if t != [] && t[0] == '-' then
      match ParseDigits(t[1..])
      case None => None
      case Some(v) => Some(-(v as int))
    else if t != [] && t[0] == '+' then
      match ParseDigits(t[1..])
      case None => None
      case Some(v) => Some(v)
    else
      match ParseDigits(t)
      case None => None
      case Some(v) => Some(v)
  }

  /** The repeat count `parseInt(input.value) || 2`, or 2 when the block has no count input. */
  function RepeatCount(countInput: Option<string>): (n: int)
    ensures n != 0
    ensures countInput.None? ==> n == 2
    ensures countInput.Some? && ParseInt(countInput.value).None? ==> n == 2
    ensures countInput.Some? && ParseInt(countInput.value).Some? ==>
              n == (if ParseInt(countInput.value).value == 0 then 2 else ParseInt(countInput.value).value)
  {
    match countInput
    case None => 2
    case Some(text) =>
      match ParseInt(text)
      case None => 2
      case Some(v) => if v == 0 then 2 else v
  }

  /** The decimal digits of a natural number, without leading zeros. */
  function Decimal(n: nat): (ds: string)
    ensures (|ds| >= 1 && '1' <= ds[0] <= '9') || ds == "0"
    ensures forall i :: 0 <= i < |ds| ==> '0' <= ds[i] <= '9'
  {
    if n < 10 then [('0' as int + n) as char]
    else Decimal(n / 10) + [('0' as int + n % 10) as char]
  }

  /** How an integer is written: the decimal digits with a leading minus when negative. */
  function IntText(n: int): string {
    if n < 0 then "-" + Decimal(-n) else Decimal(n)
  }

  lemma {:induction false} DecimalValue(n: nat)
    ensures forall i :: 0 <= i < |Decimal(n)| ==> DigitValue(Decimal(n)[i], 10).Some?
    ensures DigitsValue(Decimal(n), 10) == n
    decreases n
  {
    var ds := Decimal(n);
    if n >= 10 {
      DecimalValue(n / 10);
      assert ds[..|ds| - 1] == Decimal(n / 10);
    }
  }

  lemma DigitRunAll(ds: string, radix: nat)
    requires forall i :: 0 <= i < |ds| ==> DigitValue(ds[i], radix).Some?
    ensures DigitRun(ds, radix) == |ds|
  {
  }

  /** The digits part reads back the decimal digits of a number. */
  lemma ParseDigitsDecimal(m: nat)
    ensures ParseDigits(Decimal(m)) == Some(m)
  {
    var ds := Decimal(m);
    DecimalValue(m);
    DigitRunAll(ds, 10);
    assert !HexPrefix(ds) by {
      assert ds == "0" || ds[0] != '0';
    }
    assert ds[..|ds|] == ds;
    assert ParseDigits(ds) == Some(DigitsValue(ds[..|ds|], 10));
  }

  /** Text that does not start with white space is not trimmed. */
  lemma TrimStartNoSpace(s: string)
    requires s != [] && !IsJsSpace(s[0])
    ensures TrimStart(s) == s
  {
  }

  /** Reading back the digits of a natural number gives the number. */
  lemma ParseIntDecimal(m: nat)
    ensures ParseInt(Decimal(m)) == Some(m)
  {
    var ds := Decimal(m);
    assert '0' <= ds[0] <= '9';
    TrimStartNoSpace(ds);
    ParseDigitsDecimal(m);
  }

  /** Reading back a minus sign and the digits of a number gives its negation. */
  lemma ParseIntMinusDecimal(m: nat)
    ensures ParseInt("-" + Decimal(m)) == Some(-(m as int))
  {
    var text := "-" + Decimal(m);
    assert text[0] == '-' && text[1..] == Decimal(m);
    TrimStartNoSpace(text);
    ParseDigitsDecimal(m);
    ParseIntMinus(text, m);
  }

  /** A minus sign in front of digits worth `m`, with nothing to trim, reads as `-m`. */
  lemma ParseIntMinus(s: string, m: nat)
    requires s != [] && s[0] == '-' && TrimStart(s) == s && ParseDigits(s[1..]) == Some(m)
    ensures ParseInt(s) == Some(-(m as int))
  {
  }

  /** Reading back the text of an integer gives the integer. */
  lemma ParseIntText(n: int)
    ensures ParseInt(IntText(n)) == Some(n)
  {
    if n < 0 {
      ParseIntMinusDecimal(-n);
    } else {
      ParseIntDecimal(n);
    }
  }

  /** A count input holding the text of a non-zero integer gives exactly that count. */
  lemma RepeatCountText(n: int)
    ensures RepeatCount(Some(IntText(n))) == if n == 0 then 2 else n
  {
    ParseIntText(n);
  }

  // ---------------------------------------------------------------------
  // Blocks and commands

  /**
   * A workspace block: `data-block-type`, the `.repeat-count` input's
   * text (None when the block has no such input), and the blocks dropped
   * into its repeat container, in order (empty when it has none).
   */
  datatype Block = Block(kind: string, countInput: Option<string>, nested: seq<Block>)

  /** The block types `blockToCommand` turns into a command. */
  predicate KnownKind(kind: string) {
    kind == "move-forward" || kind == "turn-left" || kind == "turn-right" ||
    kind == "repeat" || kind == "if-wall"
  }

  /** The `type` string of a command. */
  function TypeOf(c: Cmd): string {
    match c
    case Forward => "move-forward"
    case Left => "turn-left"
    case Right => "turn-right"
    case Repeat(_, _) => "repeat"
    case Unknown(kind) => kind
  }

  /**
   * `blockToCommand`: a known block type becomes the command of the same
   * type (a repeat with its count and its nested commands); any other
   * type becomes nothing.
   */
  function BlockToCommand(b: Block): (r: Option<Cmd>)
    ensures r.Some? <==> KnownKind(b.kind)
    ensures r.Some? ==> TypeOf(r.value) == b.kind
    ensures b.kind == "move-forward" ==> r == Some(Forward)
    ensures b.kind == "turn-left" ==> r == Some(Left)
    ensures b.kind == "turn-right" ==> r == Some(Right)
    ensures b.kind == "if-wall" ==> r == Some(Unknown("if-wall"))
    ensures b.kind == "repeat" ==> r == Some(Repeat(RepeatCount(b.countInput), CommandsOf(b.nested)))
    ensures r.Some? ==> WellFormed(r.value)
    decreases b, 1
  {
    if b.kind == "move-forward" then Some(Forward)
    else if b.kind == "turn-left" then Some(Left)
    else if b.kind == "turn-right" then Some(Right)
    else if b.kind == "repeat" then Some(Repeat(RepeatCount(b.countInput), CommandsOf(b.nested)))
    else if b.kind == "if-wall" then Some(Unknown("if-wall"))
    else None
  }

  /** `getProgram` and `getNestedCommands`: the commands of the blocks, in order, unknown blocks dropped. */
  function CommandsOf(bs: seq<Block>): (cs: seq<Cmd>)
    ensures |cs| <= |bs|
    ensures forall i :: 0 <= i < |cs| ==> WellFormed(cs[i])
    decreases bs, 0
  {
    if bs == [] then []
    else
      var rest := CommandsOf(bs[1..]);
      match BlockToCommand(bs[0])
      case Some(c) => [c] + rest
      case None => rest
  }

  /** Translation keeps order: the commands of `a + b` are those of `a`, then those of `b`. */
  lemma {:induction false} CommandsOfAppend(a: seq<Block>, b: seq<Block>)
    ensures CommandsOf(a + b) == CommandsOf(a) + CommandsOf(b)
    decreases |a|
  {
    if a == [] {
      assert a + b == b;
    } else {
      assert (a + b)[0] == a[0];
      assert (a + b)[1..] == a[1..] + b;
      CommandsOfAppend(a[1..], b);
    }
  }

  /** The number of blocks of a known type. */
  function KnownCount(bs: seq<Block>): nat {
    if bs == [] then 0 else (if KnownKind(bs[0].kind) then 1 else 0) + KnownCount(bs[1..])
  }

  /** Only unknown blocks are dropped: one command per known block, and each is the translation of a block. */
  lemma {:induction false} CommandsOfDropsOnlyUnknown(bs: seq<Block>)
    ensures |CommandsOf(bs)| == KnownCount(bs)
    ensures forall c :: c in CommandsOf(bs) ==> exists b :: b in bs && BlockToCommand(b) == Some(c)
    decreases |bs|
  {
    if bs != [] {
      CommandsOfDropsOnlyUnknown(bs[1..]);
      forall c | c in CommandsOf(bs)
        ensures exists b :: b in bs && BlockToCommand(b) == Some(c)
      {
        if c !in CommandsOf(bs[1..]) {
          assert BlockToCommand(bs[0]) == Some(c);
        } else {
          var b :| b in bs[1..] && BlockToCommand(b) == Some(c);
          assert b in bs;
        }
      }
    }
  }

  /** `canNestBlock`: anything but a repeat may be dropped into a repeat. */
  predicate CanNestBlock(b: Block) {
    b.kind != "repeat"
  }

  /** A block none of whose nested blocks is a repeat. */
  predicate NestFree(b: Block) {
    forall i :: 0 <= i < |b.nested| ==> CanNestBlock(b.nested[i])
  }

  /** A command with no repeat among a repeat's children. */
  predicate Flat(c: Cmd) {
    c.Repeat? ==> forall i :: 0 <= i < |c.children| ==> !c.children[i].Repeat?
  }

  /** Blocks that went through `canNestBlock` translate to commands with no repeat inside a repeat. */
  lemma NestFreeIsFlat(bs: seq<Block>)
    requires forall i :: 0 <= i < |bs| ==> NestFree(bs[i])
    ensures forall i :: 0 <= i < |CommandsOf(bs)| ==> Flat(CommandsOf(bs)[i])
  {
    CommandsOfDropsOnlyUnknown(bs);
    forall i | 0 <= i < |CommandsOf(bs)|
      ensures Flat(CommandsOf(bs)[i])
    {
      var c := CommandsOf(bs)[i];
      var b :| b in bs && BlockToCommand(b) == Some(c);
      if c.Repeat? {
        CommandsOfDropsOnlyUnknown(b.nested);
        forall j | 0 <= j < |c.children|
          ensures !c.children[j].Repeat?
        {
          var n :| n in b.nested && BlockToCommand(n) == Some(c.children[j]);
        }
      }
    }
  }

  /** The `{valid, error}` result of `validateProgram`. */
  datatype ValidationError = EmptyWorkspace | NeedsMoveBlock
  datatype Validation = Valid | Invalid(error: ValidationError)

  /** The number of top-level blocks of one type. */
  function CountKind(bs: seq<Block>, kind: string): nat {
    if bs == [] then 0 else CountKind(bs[..|bs| - 1], kind) + (if bs[|bs| - 1].kind == kind then 1 else 0)
  }

  lemma {:induction false} CountKindPositive(bs: seq<Block>, kind: string)
    ensures CountKind(bs, kind) > 0 <==> exists i :: 0 <= i < |bs| && bs[i].kind == kind
    decreases |bs|
  {
    if bs != [] {
      var init := bs[..|bs| - 1];
      CountKindPositive(init, kind);
      if exists i :: 0 <= i < |init| && init[i].kind == kind {
        var i :| 0 <= i < |init| && init[i].kind == kind;
        assert bs[i].kind == kind;
      }
      if exists i :: 0 <= i < |bs| && bs[i].kind == kind {
        var i :| 0 <= i < |bs| && bs[i].kind == kind;
        if i < |init| {
          assert init[i].kind == kind;
        }
      }
    }
  }

  /** The block that `commandToBlock` builds: none, in this version of the editor. */
  function CommandToBlock(c: Cmd): Option<Block> {
    None
  }

  /** No element for None, one for Some. */
  function OptionToSeq(o: Option<Block>): (s: seq<Block>)
    ensures |s| <= 1
    ensures o.Some? ==> s == [o.value]
    ensures o.None? ==> s == []
  {
    match o
    case None => []
    case Some(b) => [b]
  }

  /** The result of `JSON.parse` as far as `loadProgram` looks at it: an array, or any other value. */
  datatype Json = JArray(items: seq<Cmd>) | JOther

  // ---------------------------------------------------------------------
  // The workspace

  class BlockSystem {
    /** `this.blocks`: the top-level blocks of the workspace, in order. */
    var blocks: seq<Block>

    /** Every top-level block holds only blocks that passed `canNestBlock`. */
    predicate AllNestFree()
      reads this
    {
      forall i :: 0 <= i < |blocks| ==> NestFree(blocks[i])
    }

    constructor ()
      ensures blocks == []
    {
      blocks := [];
    }

    /**
     * `addBlockToWorkspace`: the block goes at the end. The workspace keeps
     * repeats out of repeats exactly when the added block does.
     */
    method AddBlockToWorkspace(b: Block)
      modifies this
      ensures blocks == old(blocks) + [b]
      ensures AllNestFree() <==> old(AllNestFree()) && NestFree(b)
    {
      var before := blocks;
      blocks := blocks + [b];
      assert blocks[|before|] == b;
      assert forall i :: 0 <= i < |before| ==> blocks[i] == before[i];
    }

    /** `removeBlock`: `indexOf` finds the first occurrence, and `splice` removes just that one. */
    method RemoveBlock(b: Block)
      modifies this
      ensures blocks == RemoveFirst(old(blocks), b)
      ensures old(AllNestFree()) ==> AllNestFree()
    {
      var index := IndexOf(blocks, b);
      if index > -1 {
        blocks := blocks[..index] + blocks[index + 1..];
      }
    }

    /** `clearWorkspace`. */
    method ClearWorkspace()
      modifies this
      ensures blocks == []
      ensures AllNestFree()
    {
      blocks := [];
    }

    /**
     * The drop handler of a repeat's container: the dropped block is
     * appended to the repeat's nested blocks only if `canNestBlock` allows it.
     */
    method DropIntoRepeat(i: nat, b: Block)
      requires i < |blocks| && blocks[i].kind == "repeat"
      modifies this
      ensures CanNestBlock(b) ==>
                blocks == old(blocks)[i := old(blocks)[i].(nested := old(blocks)[i].nested + [b])]
      ensures !CanNestBlock(b) ==> blocks == old(blocks)
      ensures old(AllNestFree()) ==> AllNestFree()
    {
      if CanNestBlock(b) {
        var target := blocks[i];
        blocks := blocks[i := target.(nested := target.nested + [b])];
      }
    }

    /** `getProgram`: each block's command, in order, unknown blocks dropped. */
    method GetProgram() returns (program: seq<Cmd>)
      ensures program == CommandsOf(blocks)
      ensures AllNestFree() ==> forall i :: 0 <= i < |program| ==> Flat(program[i])
    {
      program := [];
      for i := 0 to |blocks|
        invariant program == CommandsOf(blocks[..i])
      {
        CommandsOfAppend(blocks[..i], [blocks[i]]);
        assert blocks[..i + 1] == blocks[..i] + [blocks[i]];
        var command := BlockToCommand(blocks[i]);
        if command.Some? {
          program := program + [command.value];
        }
      }
      assert blocks[..|blocks|] == blocks;
      if AllNestFree() {
        NestFreeIsFlat(blocks);
      }
    }

    /**
     * `validateProgram`: invalid when there are no blocks, invalid when no
     * top-level block is a move-forward (nested ones do not count), valid
     * otherwise. The turn count is computed and never used.
     */
    method ValidateProgram() returns (v: Validation)
      ensures v == Valid <==> blocks != [] && exists i :: 0 <= i < |blocks| && blocks[i].kind == "move-forward"
      ensures blocks == [] ==> v == Invalid(EmptyWorkspace)
      ensures v.Invalid? && blocks != [] ==> v == Invalid(NeedsMoveBlock)
    {
      if |blocks| == 0 {
        return Invalid(EmptyWorkspace);
      }
      var forwardCount := 0;
      var turnCount := 0;
      for i := 0 to |blocks|
        invariant forwardCount == CountKind(blocks[..i], "move-forward")
      {
        assert blocks[..i + 1][..i] == blocks[..i];
        var blockType := blocks[i].kind;
        if blockType == "move-forward" {
          forwardCount := forwardCount + 1;
        }
        if blockType == "turn-left" || blockType == "turn-right" {
          turnCount := turnCount + 1;
        }
      }
      assert blocks[..|blocks|] == blocks;
      CountKindPositive(blocks, "move-forward");
      if forwardCount == 0 {
        return Invalid(NeedsMoveBlock);
      }
      return Valid;
    }

    /**
     * `loadProgram`: a text that does not parse changes nothing; one that
     * parses clears the workspace first and then adds the block of each
     * command, and since `commandToBlock` builds none, the workspace stays
     * empty. A parsed value that is not an array makes `forEach` throw
     * after the clear, which the same `catch` swallows.
     */
    method LoadProgram(parsed: Option<Json>)
      modifies this
      ensures parsed.None? ==> blocks == old(blocks)
      ensures parsed.Some? ==> blocks == []
      ensures old(AllNestFree()) ==> AllNestFree()
    {
      if parsed.None? {
        return;
      }
      ClearWorkspace();
      if parsed.value.JArray? {
        var program := parsed.value.items;
        for i := 0 to |program|
          invariant blocks == []
        {
          // the block is added only when there is one
          blocks := blocks + OptionToSeq(CommandToBlock(program[i]));
        }
      }
    }
  }

  /** `Array.prototype.indexOf`: the first index holding `x`, or -1. */
  function IndexOf(s: seq<Block>, x: Block): (i: int)
    ensures -1 <= i < |s|
    ensures i == -1 <==> x !in s
    ensures 0 <= i ==> s[i] == x && forall j :: 0 <= j < i ==> s[j] != x
  {
    if s == [] then -1
    else if s[0] == x then 0
    else
      var k := IndexOf(s[1..], x);
      if k == -1 then -1 else k + 1
  }

  /** The list with its first occurrence of `x` taken out, if there is one. */
  function RemoveFirst(s: seq<Block>, x: Block): seq<Block> {
    var i := IndexOf(s, x);
    if i > -1 then s[..i] + s[i + 1..] else s
  }

  /**
   * Removing a present block takes out its first occurrence: the blocks
   * before it stay, and the ones after it move up by one, in order.
   */
  lemma RemoveFirstKeepsOrder(s: seq<Block>, x: Block)
    requires x in s
    ensures exists i :: 0 <= i < |s| && s[i] == x && x !in s[..i] && RemoveFirst(s, x) == s[..i] + s[i + 1..]
  {
    var i := IndexOf(s, x);
    assert x !in s[..i];
  }

  /**
   * Removing takes out one copy of the block and nothing else, and an
   * absent block leaves the list as it was.
   */
  lemma RemoveFirstSpec(s: seq<Block>, x: Block)
    ensures multiset(RemoveFirst(s, x)) == multiset(s) - multiset{x}
    ensures x in s ==> |RemoveFirst(s, x)| == |s| - 1
    ensures x !in s ==> RemoveFirst(s, x) == s
  {
    var i := IndexOf(s, x);
    if i > -1 {
      var front, back := s[..i], s[i + 1..];
      assert RemoveFirst(s, x) == front + back;
      assert s == front + ([x] + back);
      calc {
        multiset(s);
        multiset(front) + multiset([x] + back);
        multiset(front) + multiset{x} + multiset(back);
      }
      assert multiset(front + back) == multiset(front) + multiset(back);
    }
  }
}
