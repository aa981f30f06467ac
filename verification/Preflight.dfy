/**
 The lexical preflight: one pass over the bytes that bounds size, nesting and token starts before
 anything is parsed. It is no parser, yet on every printing of a tree it measures the tree, whatever
 bytes occur inside its strings and whatever space lies between its tokens.
 */
module Preflight {
  import opened AppSpec

  type byte = b: int | 0 <= b < 256

  const QUOTE: byte := 0x22
  const BACKSLASH: byte := 0x5C

  predicate Opens(b: byte) { b == 0x7B || b == 0x5B }
  predicate Closes(b: byte) { b == 0x7D || b == 0x5D }
  predicate Separates(b: byte) { b == 0x3A || b == 0x2C || b == 0x20 || b == 0x0A || b == 0x0D || b == 0x09 }

  // ------------------------------------------------------------ the scanner

  datatype Scan = Scan(depth: nat, peak: nat, nodes: nat, inString: bool, escape: bool, atom: bool)

  const START := Scan(0, 0, 0, false, false, false)

  function Max(a: nat, b: nat): nat { if a >= b then a else b }

  function Step(s: Scan, b: byte): Scan {
    if s.inString then
      if s.escape then s.(escape := false)
      else if b == BACKSLASH then s.(escape := true)
      else if b == QUOTE then s.(inString := false)
      else s
    else if b == QUOTE then s.(inString := true, atom := false, nodes := s.nodes + 1)
    else if Opens(b) then s.(depth := s.depth + 1, peak := Max(s.peak, s.depth + 1), nodes := s.nodes + 1, atom := false)
    else if Closes(b) then s.(depth := if s.depth == 0 then 0 else s.depth - 1, atom := false)
    else if Separates(b) then s.(atom := false)
    else if s.atom then s
    else s.(nodes := s.nodes + 1, atom := true)
  }

  function Run(s: Scan, bytes: seq<byte>): Scan {
    if bytes == [] then s else Step(Run(s, bytes[..|bytes| - 1]), bytes[|bytes| - 1])
  }

  /** What the limits ask of a byte string. */
  predicate WithinLimits(bytes: seq<byte>) {
    |bytes| <= MAX_BYTES && Run(START, bytes).peak <= MAX_DEPTH && Run(START, bytes).nodes <= MAX_NODES
  }

  lemma {:induction false} RunGrows(s: Scan, bytes: seq<byte>, i: nat)
    requires i <= |bytes|
    ensures Run(s, bytes[..i]).peak <= Run(s, bytes).peak && Run(s, bytes[..i]).nodes <= Run(s, bytes).nodes
    decreases |bytes|
  {
    if i < |bytes| {
      var front := bytes[..|bytes| - 1];
      assert front[..i] == bytes[..i];
      RunGrows(s, front, i);
    } else {
      assert bytes[..i] == bytes;
    }
  }

  /** `preflight` of the portable codec. */
  method PreflightCodec(bytes: seq<byte>) returns (ok: bool)
    ensures ok <==> WithinLimits(bytes)
  {
    if |bytes| > MAX_BYTES {
      return false;
    }
    var depth: nat, nodes: nat := 0, 0;
    var inString, escape, atom := false, false, false;
    ghost var peak: nat := 0;
    for i := 0 to |bytes|
      invariant Run(START, bytes[..i]) == Scan(depth, peak, nodes, inString, escape, atom)
      invariant peak <= MAX_DEPTH && nodes <= MAX_NODES
    {
      var byte := bytes[i];
      assert bytes[..i + 1][..i] == bytes[..i];
      RunGrows(START, bytes, i + 1);
      if inString {
        if escape {
          escape := false;
        } else if byte == BACKSLASH {
          escape := true;
        } else if byte == QUOTE {
          inString := false;
        }
        continue;
      }
      if byte == QUOTE {
        inString := true;
        atom := false;
        nodes := nodes + 1;
      } else if Opens(byte) {
        depth := depth + 1;
        peak := Max(peak, depth);
        nodes := nodes + 1;
        atom := false;
        if depth > MAX_DEPTH {
          return false;
        }
      } else if Closes(byte) {
        depth := if depth == 0 then 0 else depth - 1;
        atom := false;
      } else if Separates(byte) {
        atom := false;
      } else if !atom {
        nodes := nodes + 1;
        atom := true;
      }
      if nodes > MAX_NODES {
        return false;
      }
    }
    assert bytes[..|bytes|] == bytes;
    ok := true;
  }

  const MAX_WIRE_BYTES := 1_048_576
  const MAX_WIRE_DEPTH := 16
  const MAX_WIRE_NODES := 20_000

  /** `limit`. */
  predicate Exceeds(actual: nat, bound: nat) {
    actual > bound
  }

  /** `preflight` of the wire protocol, which keeps its own limits and folds the atom test into its branches. */
  method PreflightWire(bytes: seq<byte>) returns (ok: bool)
    ensures ok <==> WithinLimits(bytes)
  {
    if Exceeds(|bytes|, MAX_WIRE_BYTES) {
      return false;
    }
    var depth: nat, nodes: nat := 0, 0;
    var inString, escape, atom := false, false, false;
    ghost var peak: nat := 0;
    var i := 0;
    while i < |bytes|
      invariant 0 <= i <= |bytes|
      invariant Run(START, bytes[..i]) == Scan(depth, peak, nodes, inString, escape, atom)
      invariant peak <= MAX_WIRE_DEPTH && nodes <= MAX_WIRE_NODES
    {
      var byte := bytes[i];
      assert bytes[..i + 1][..i] == bytes[..i];
      RunGrows(START, bytes, i + 1);
      i := i + 1;
      if inString {
        if escape {
          escape := false;
        } else if byte == BACKSLASH {
          escape := true;
        } else if byte == QUOTE {
          inString := false;
        }
        continue;
      }
      if byte == QUOTE {
        inString, atom, nodes := true, false, nodes + 1;
      } else if Opens(byte) {
        depth, nodes, atom := depth + 1, nodes + 1, false;
        peak := Max(peak, depth);
        if Exceeds(depth, MAX_WIRE_DEPTH) {
          return false;
        }
      } else if Closes(byte) {
        depth, atom := if depth == 0 then 0 else depth - 1, false;
      } else if Separates(byte) {
        atom := false;
      } else {
        if !atom {
          nodes, atom := nodes + 1, true;
        }
      }
      if Exceeds(nodes, MAX_WIRE_NODES) {
        return false;
      }
    }
    assert bytes[..|bytes|] == bytes;
    ok := true;
  }

  // ------------------------------------------------------------ trees and their printings

  /** Strings as section 7 of RFC 8259 writes them: plain bytes, and a backslash with the byte it escapes. */
  datatype Token = Plain(b: byte) | Escaped(b: byte)

  datatype Json =
    | Scalar(text: seq<byte>)
    | Str(tokens: seq<Token>)
    | Arr(lead: seq<byte>, items: Items)
    | Obj(lead: seq<byte>, members: Members)

  /** `trail` is the space after an item, `lead` the space after the comma that follows it. */
  datatype Items = NoItems | Item(first: Json, trail: seq<byte>, lead: seq<byte>, rest: Items)

  /** The key, the space on both sides of the colon, the value, and the space as in a list. */
  datatype Members =
    NoMembers | Member(key: seq<Token>, before: seq<byte>, after: seq<byte>, value: Json, trail: seq<byte>, lead: seq<byte>, rest: Members)

  /** Space between tokens, as section 2 of RFC 8259 has it: blanks, line feeds, returns and tabs. */
  predicate Space(gap: seq<byte>) {
    forall i :: 0 <= i < |gap| ==> gap[i] == 0x20 || gap[i] == 0x0A || gap[i] == 0x0D || gap[i] == 0x09
  }

  predicate TokensOk(tokens: seq<Token>) {
    forall i :: 0 <= i < |tokens| && tokens[i].Plain? ==> tokens[i].b != QUOTE && tokens[i].b != BACKSLASH
  }

  /** A literal or a number: letters, digits, signs and decimal points, at least one. */
  predicate ScalarOk(text: seq<byte>) {
    && text != []
    && forall i :: 0 <= i < |text| ==>
         || (0x61 <= text[i] && text[i] <= 0x7A) || (0x41 <= text[i] && text[i] <= 0x5A) || (0x30 <= text[i] && text[i] <= 0x39)
         || text[i] == 0x2B || text[i] == 0x2D || text[i] == 0x2E
  }

  predicate WellFormed(t: Json) {
    match t
    case Scalar(text) => ScalarOk(text)
    case Str(tokens) => TokensOk(tokens)
    case Arr(lead, items) => Space(lead) && ItemsOk(items)
    case Obj(lead, members) => Space(lead) && MembersOk(members)
  }

  predicate ItemsOk(items: Items) {
    match items
    case NoItems => true
    case Item(first, trail, lead, rest) => WellFormed(first) && Space(trail) && Space(lead) && ItemsOk(rest)
  }

  predicate MembersOk(members: Members) {
    match members
    case NoMembers => true
    case Member(key, before, after, value, trail, lead, rest) =>
      TokensOk(key) && Space(before) && Space(after) && WellFormed(value) && Space(trail) && Space(lead) && MembersOk(rest)
  }

  function PrintTokens(tokens: seq<Token>): seq<byte> {
    if tokens == [] then []
    else
      var t := tokens[|tokens| - 1];
      PrintTokens(tokens[..|tokens| - 1]) + (if t.Plain? then [t.b] else [BACKSLASH, t.b])
  }

  function PrintString(tokens: seq<Token>): seq<byte> {
    [QUOTE] + PrintTokens(tokens) + [QUOTE]
  }

  function Print(t: Json): seq<byte> {
    match t
    case Scalar(text) => text
    case Str(tokens) => PrintString(tokens)
    case Arr(lead, items) => [0x5B] + (lead + PrintItems(items)) + [0x5D]
    case Obj(lead, members) => [0x7B] + (lead + PrintMembers(members)) + [0x7D]
  }

  function PrintItems(items: Items): seq<byte> {
    match items
    case NoItems => []
    case Item(first, trail, _, NoItems) => Print(first) + trail
    case Item(first, trail, lead, rest) => Print(first) + trail + [0x2C] + (lead + PrintItems(rest))
  }

  function PrintMembers(members: Members): seq<byte> {
    match members
    case NoMembers => []
    case Member(key, before, after, value, trail, _, NoMembers) => PrintMember(key, before, after, Print(value)) + trail
    case Member(key, before, after, value, trail, lead, rest) =>
      PrintMember(key, before, after, Print(value)) + trail + [0x2C] + (lead + PrintMembers(rest))
  }

  function PrintMember(key: seq<Token>, before: seq<byte>, after: seq<byte>, value: seq<byte>): seq<byte> {
    PrintString(key) + before + [0x3A] + (after + value)
  }

  /** Nesting of containers. */
  function Depth(t: Json): nat {
    match t
    case Scalar(_) => 0
    case Str(_) => 0
    case Arr(_, items) => 1 + ItemsDepth(items)
    case Obj(_, members) => 1 + MembersDepth(members)
  }

  function ItemsDepth(items: Items): nat {
    match items
    case NoItems => 0
    case Item(first, _, _, rest) => Max(Depth(first), ItemsDepth(rest))
  }

  function MembersDepth(members: Members): nat {
    match members
    case NoMembers => 0
    case Member(_, _, _, value, _, _, rest) => Max(Depth(value), MembersDepth(rest))
  }

  /** Containers, strings (keys included) and scalars. */
  function Count(t: Json): nat {
    match t
    case Scalar(_) => 1
    case Str(_) => 1
    case Arr(_, items) => 1 + ItemsCount(items)
    case Obj(_, members) => 1 + MembersCount(members)
  }

  function ItemsCount(items: Items): nat {
    match items
    case NoItems => 0
    case Item(first, _, _, rest) => Count(first) + ItemsCount(rest)
  }

  function MembersCount(members: Members): nat {
    match members
    case NoMembers => 0
    case Member(_, _, _, value, _, _, rest) => 1 + Count(value) + MembersCount(rest)
  }

  // ------------------------------------------------------------ the scanner measures the tree

  lemma {:induction false} RunAppend(s: Scan, a: seq<byte>, b: seq<byte>)
    ensures Run(s, a + b) == Run(Run(s, a), b)
  {
    if b == [] {
      assert a + b == a;
    } else {
      var n := |b| - 1;
      assert (a + b)[..|a + b| - 1] == a + b[..n];
      RunAppend(s, a, b[..n]);
    }
  }

  lemma RunOne(s: Scan, b: byte)
    ensures Run(s, [b]) == Step(s, b)
  {
    assert [b][..0] == [];
    assert Run(s, []) == s;
  }

  /** Between the quotes nothing moves but the escape flag, whatever the bytes are. */
  lemma {:induction false} TokensScan(s: Scan, tokens: seq<Token>)
    requires TokensOk(tokens) && s.inString && !s.escape
    ensures Run(s, PrintTokens(tokens)) == s
  {
    if tokens != [] {
      var n := |tokens| - 1;
      var t := tokens[n];
      TokensScan(s, tokens[..n]);
      if t.Plain? {
        RunAppend(s, PrintTokens(tokens[..n]), [t.b]);
        RunOne(s, t.b);
      } else {
        RunAppend(s, PrintTokens(tokens[..n]), [BACKSLASH, t.b]);
        RunAppend(s, [BACKSLASH], [t.b]);
        assert [BACKSLASH] + [t.b] == [BACKSLASH, t.b];
        RunOne(s, BACKSLASH);
        RunOne(Step(s, BACKSLASH), t.b);
      }
    }
  }

  lemma StringScan(s: Scan, tokens: seq<Token>)
    requires TokensOk(tokens) && !s.inString && !s.escape
    ensures Run(s, PrintString(tokens)) == s.(nodes := s.nodes + 1, atom := false)
  {
    hide Run;
    var body := PrintTokens(tokens);
    RunAppend(s, [QUOTE] + body, [QUOTE]);
    RunAppend(s, [QUOTE], body);
    RunOne(s, QUOTE);
    var inside := Step(s, QUOTE);
    TokensScan(inside, tokens);
    RunOne(inside, QUOTE);
  }

  /** Space ends an atom and moves nothing else. */
  lemma {:induction false} SpaceScan(s: Scan, gap: seq<byte>)
    requires Space(gap) && !s.inString && !s.escape
    ensures Run(s, gap) == s.(atom := s.atom && gap == [])
  {
    if gap != [] {
      SpaceScan(s, gap[..|gap| - 1]);
    }
  }

  lemma {:induction false} ScalarScan(s: Scan, text: seq<byte>)
    requires ScalarOk(text) && !s.inString && !s.escape && !s.atom
    ensures Run(s, text) == s.(nodes := s.nodes + 1, atom := true)
  {
    var n := |text| - 1;
    if n == 0 {
      assert text[..0] == [];
    } else {
      ScalarScan(s, text[..n]);
    }
  }

  /** The state after a printed value: deeper peaks and more nodes, at the depth it started from. */
  function After(s: Scan, depth: nat, count: nat, atom: bool): Scan {
    Scan(s.depth, Max(s.peak, s.depth + depth), s.nodes + count, false, false, atom)
  }

  predicate Ready(s: Scan) {
    !s.inString && !s.escape && !s.atom && s.depth <= s.peak
  }

  lemma {:induction false} PrintScan(s: Scan, t: Json)
    requires WellFormed(t) && Ready(s)
    ensures Run(s, Print(t)) == After(s, Depth(t), Count(t), t.Scalar?)
    decreases t, 0
  {
    hide Run;
    match t {
      case Scalar(text) => ScalarScan(s, text);
      case Str(tokens) => StringScan(s, tokens);
      case Arr(lead, items) =>
        var inside := Step(s, 0x5B);
        SpaceScan(inside, lead);
        RunAppend(inside, lead, PrintItems(items));
        ItemsScan(inside, items);
        Bracketed(s, 0x5B, lead + PrintItems(items), 0x5D);
      case Obj(lead, members) =>
        var inside := Step(s, 0x7B);
        SpaceScan(inside, lead);
        RunAppend(inside, lead, PrintMembers(members));
        MembersScan(inside, members);
        Bracketed(s, 0x7B, lead + PrintMembers(members), 0x7D);
    }
  }

  lemma Bracketed(s: Scan, open: byte, body: seq<byte>, close: byte)
    ensures Run(s, [open] + body + [close]) == Step(Run(Step(s, open), body), close)
  {
    hide Run, Step;
    RunAppend(s, [open] + body, [close]);
    RunAppend(s, [open], body);
    RunOne(s, open);
    RunOne(Run(Step(s, open), body), close);
  }

  /** The scanner across a text, space, one byte and more text. */
  lemma Across(s: Scan, a: seq<byte>, gap: seq<byte>, b: byte, rest: seq<byte>)
    ensures Run(s, a + gap + [b] + rest) == Run(Step(Run(Run(s, a), gap), b), rest)
  {
    hide Run, Step;
    RunAppend(s, a + gap + [b], rest);
    RunAppend(s, a + gap, [b]);
    RunAppend(s, a, gap);
    RunOne(Run(s, a + gap), b);
  }

  lemma {:induction false} ItemsScan(s: Scan, items: Items)
    requires ItemsOk(items) && Ready(s)
    ensures exists atom :: Run(s, PrintItems(items)) == After(s, ItemsDepth(items), ItemsCount(items), atom)
    decreases items, 0
  {
    hide Run;
    match items {
      case NoItems =>
        RunNone(s);
        assert Run(s, PrintItems(items)) == After(s, 0, 0, false);
      case Item(first, trail, lead, rest) =>
        PrintScan(s, first);
        SpaceScan(Run(s, Print(first)), trail);
        if rest.Item? {
          var next := Step(Run(Run(s, Print(first)), trail), 0x2C);
          SpaceScan(next, lead);
          ItemsScan(next, rest);
          RunAppend(next, lead, PrintItems(rest));
          Across(s, Print(first), trail, 0x2C, lead + PrintItems(rest));
          var atom :| Run(next, PrintItems(rest)) == After(next, ItemsDepth(rest), ItemsCount(rest), atom);
          assert Run(s, PrintItems(items)) == After(s, ItemsDepth(items), ItemsCount(items), atom);
        } else {
          RunAppend(s, Print(first), trail);
          assert Run(s, PrintItems(items)) == After(s, ItemsDepth(items), ItemsCount(items), first.Scalar? && trail == []);
        }
    }
  }

  lemma RunNone(s: Scan)
    ensures Run(s, []) == s
  {
  }

  lemma MemberScan(s: Scan, key: seq<Token>, before: seq<byte>, after: seq<byte>, value: Json)
    requires TokensOk(key) && Space(before) && Space(after) && WellFormed(value) && Ready(s)
    ensures Run(s, PrintMember(key, before, after, Print(value))) == After(s, Depth(value), 1 + Count(value), value.Scalar?)
    decreases value, 1
  {
    hide Run;
    StringScan(s, key);
    SpaceScan(Run(s, PrintString(key)), before);
    var colon := Step(Run(Run(s, PrintString(key)), before), 0x3A);
    SpaceScan(colon, after);
    RunAppend(colon, after, Print(value));
    PrintScan(colon, value);
    Across(s, PrintString(key), before, 0x3A, after + Print(value));
  }

  lemma {:induction false} MembersScan(s: Scan, members: Members)
    requires MembersOk(members) && Ready(s)
    ensures exists atom :: Run(s, PrintMembers(members)) == After(s, MembersDepth(members), MembersCount(members), atom)
    decreases members, 0
  {
    hide Run;
    match members {
      case NoMembers =>
        RunNone(s);
        assert Run(s, PrintMembers(members)) == After(s, 0, 0, false);
      case Member(key, before, after, value, trail, lead, rest) =>
        var text := PrintMember(key, before, after, Print(value));
        MemberScan(s, key, before, after, value);
        SpaceScan(Run(s, text), trail);
        if rest.Member? {
          var next := Step(Run(Run(s, text), trail), 0x2C);
          SpaceScan(next, lead);
          MembersScan(next, rest);
          RunAppend(next, lead, PrintMembers(rest));
          Across(s, text, trail, 0x2C, lead + PrintMembers(rest));
          var atom :| Run(next, PrintMembers(rest)) == After(next, MembersDepth(rest), MembersCount(rest), atom);
          assert Run(s, PrintMembers(members)) == After(s, MembersDepth(members), MembersCount(members), atom);
        } else {
          RunAppend(s, text, trail);
          assert Run(s, PrintMembers(members)) == After(s, MembersDepth(members), MembersCount(members), value.Scalar? && trail == []);
        }
    }
  }

  /** The preflight accepts a printing of a tree, with any space around and between its tokens, exactly when the tree is within the limits. */
  lemma PreflightMeasures(lead: seq<byte>, t: Json, trail: seq<byte>)
    requires WellFormed(t) && Space(lead) && Space(trail)
    ensures var text := lead + Print(t) + trail;
            && Run(START, text).peak == Depth(t) && Run(START, text).nodes == Count(t)
            && (WithinLimits(text) <==> |text| <= 1_048_576 && Depth(t) <= 16 && Count(t) <= 20_000)
  {
    hide Run;
    RunAppend(START, lead + Print(t), trail);
    RunAppend(START, lead, Print(t));
    SpaceScan(START, lead);
    PrintScan(START, t);
    SpaceScan(Run(START, Print(t)), trail);
  }
}
