/** Blanking the comments and literals of Rust source text: a lexer with five
    states, one loop, and what the text it returns can be relied on for. */
module Masking {
  import opened Orders

  datatype Fault = UnterminatedComment | UnterminatedString

  // -------------------------------------------------------------------------
  // What a comment or literal at the front of a text is.
  // -------------------------------------------------------------------------

  predicate Pair(s: string, a: char, b: char) { |s| >= 2 && s[0] == a && s[1] == b }

  predicate Hex(c: char) { '0' <= c <= '9' || 'A' <= c <= 'F' || 'a' <= c <= 'f' }

  predicate HexOrBar(c: char) { Hex(c) || c == '_' }

  function Plus(n: nat, end: Option<nat>): Option<nat> {
    match end case None => None case Some(e) => Some(n + e)
  }

  /** Up to the newline, which stays outside. */
  function LineEnd(s: string): (e: nat)
    ensures e <= |s|
  {
    if s == "" || s[0] == '\n' then 0 else 1 + LineEnd(s[1..])
  }

  /** Up to the close of the outermost of `depth` open block comments. */
  function BlockEnd(s: string, depth: nat): (r: Option<nat>)
    requires depth > 0
    ensures r.Some? ==> r.value <= |s|
  {
    if s == "" then None
    else if Pair(s, '/', '*') then Plus(2, BlockEnd(s[2..], depth + 1))
    else if Pair(s, '*', '/') then if depth == 1 then Some(2) else Plus(2, BlockEnd(s[2..], depth - 1))
    else Plus(1, BlockEnd(s[1..], depth))
  }

  /** Past the first quote that no backslash escapes. */
  function StringEnd(s: string): (r: Option<nat>)
    ensures r.Some? ==> r.value <= |s|
  {
    if s == "" then None
    else if s[0] == '\\' then if |s| >= 2 then Plus(2, StringEnd(s[2..])) else None
    else if s[0] == '"' then Some(1)
    else Plus(1, StringEnd(s[1..]))
  }

  function Hashes(n: nat): (r: string)
    ensures |r| == n && forall k :: 0 <= k < n ==> r[k] == '#'
  {
    seq(n, _ => '#')
  }

  /** Past the first quote followed by the hashes the literal opened with. */
  function RawEnd(s: string, hashes: nat): (r: Option<nat>)
    ensures r.Some? ==> r.value <= |s|
  {
    if "\"" + Hashes(hashes) <= s then Some(1 + hashes)
    else if s == "" then None
    else Plus(1, RawEnd(s[1..], hashes))
  }

  function HexRun(s: string): (n: nat)
    ensures n <= |s|
  {
    if s == "" || !HexOrBar(s[0]) then 0 else 1 + HexRun(s[1..])
  }

  /** The length of the character literal at the front, or zero. */
  function CharLiteral(s: string): (n: nat)
    ensures n <= |s| && n != 1 && n != 2
  {
    if |s| < 3 || s[0] != '\'' then 0
    else if s[1] != '\\' then if s[1] != '\'' && s[1] != '\n' && s[2] == '\'' then 3 else 0
    else if |s| >= 6 && s[2] == 'x' && Hex(s[3]) && Hex(s[4]) && s[5] == '\'' then 6
    else
      var run := if |s| >= 4 then HexRun(s[4..]) else 0;
      if |s| >= run + 6 && s[2] == 'u' && s[3] == '{' && run > 0 && s[4 + run] == '}' && s[5 + run] == '\'' then 6 + run
      else if |s| >= 4 && s[2] != '\n' && s[3] == '\'' then 4
      else 0
  }

  function HashRun(s: string): (n: nat)
    ensures n <= |s|
    ensures forall k :: 0 <= k < n ==> s[k] == '#'
  {
    if s == "" || s[0] != '#' then 0 else 1 + HashRun(s[1..])
  }

  /** The hashes of the raw string that opens after `r`: at most 255, then a quote. */
  function RawOpening(s: string): (r: Option<nat>)
    ensures r.Some? ==> r.value + 1 <= |s| && s[r.value] == '"'
  {
    var n := HashRun(s);
    if n <= 255 && n < |s| && s[n] == '"' then Some(n) else None
  }

  /** The length of `r` or `br` at the front of a raw string, or zero. */
  function RawMark(s: string): (n: nat)
    ensures n <= 2 && n <= |s|
  {
    if Pair(s, 'b', 'r') && RawOpening(s[2..]).Some? then 2
    else if s != "" && s[0] == 'r' && RawOpening(s[1..]).Some? then 1
    else 0
  }

  datatype Token = Plain | Span(end: Option<nat>, fault: Fault)

  function TokenOf(s: string): (t: Token)
    requires s != ""
    ensures t.Span? && t.end.Some? ==> 2 <= t.end.value <= |s|
  {
    if Pair(s, '/', '/') then Span(Some(2 + LineEnd(s[2..])), UnterminatedComment)
    else if Pair(s, '/', '*') then Span(Plus(2, BlockEnd(s[2..], 1)), UnterminatedComment)
    else if s[0] == '\'' then if CharLiteral(s) > 0 then Span(Some(CharLiteral(s)), UnterminatedString) else Plain
    else if s[0] == '"' then StringAtLeastOne(s[1..]); Span(Plus(1, StringEnd(s[1..])), UnterminatedString)
    else
      var mark := RawMark(s);
      if mark == 0 then Plain
      else
        var hashes := RawOpening(s[mark..]).value;
        Span(Plus(mark + hashes + 1, RawEnd(s[mark + hashes + 1..], hashes)), UnterminatedString)
  }

  lemma StringAtLeastOne(s: string)
    ensures StringEnd(s).Some? ==> StringEnd(s).value >= 1
  {}

  // -------------------------------------------------------------------------
  // The masked text.
  // -------------------------------------------------------------------------

  function Blank(s: string): (r: string)
    ensures |r| == |s|
    ensures forall k :: 0 <= k < |s| ==> r[k] == if s[k] == '\n' then '\n' else ' '
  {
    seq(|s|, k requires 0 <= k < |s| => if s[k] == '\n' then '\n' else ' ')
  }

  function Prepend(front: string, r: Result<string, Fault>): Result<string, Fault> {
    match r case Ok(m) => Ok(front + m) case Err(f) => Err(f)
  }

  /** Comments and literals blanked, everything else as it was. */
  function Masked(s: string): Result<string, Fault> {
    if s == "" then Ok("")
    else match TokenOf(s)
         case Plain => Prepend(s[..1], Masked(s[1..]))
         case Span(None, fault) => Err(fault)
         case Span(Some(e), _) => Prepend(Blank(s[..e]), Masked(s[e..]))
  }

  // -------------------------------------------------------------------------
  // The loop.
  // -------------------------------------------------------------------------

  datatype State = InCode | InLine | InBlock(depth: nat) | InString | InRaw(hashes: nat)

  function Spanned(s: string, end: Option<nat>, fault: Fault): Result<string, Fault>
    requires end.Some? ==> end.value <= |s|
  {
    match end case None => Err(fault) case Some(e) => Prepend(Blank(s[..e]), Masked(s[e..]))
  }

  /** What is still to be written when the loop is in a state before `s`. */
  function Rest(state: State, s: string): Result<string, Fault> {
    match state
    case InCode => Masked(s)
    case InLine => Spanned(s, Some(LineEnd(s)), UnterminatedComment)
    case InBlock(depth) => if depth == 0 then Masked(s) else Spanned(s, BlockEnd(s, depth), UnterminatedComment)
    case InString => Spanned(s, StringEnd(s), UnterminatedString)
    case InRaw(hashes) => Spanned(s, RawEnd(s, hashes), UnterminatedString)
  }

  lemma SpannedSplit(s: string, n: nat, end: Option<nat>, fault: Fault)
    requires n <= |s| && (end.Some? ==> n + end.value <= |s|)
    ensures Spanned(s, Plus(n, end), fault) == Prepend(Blank(s[..n]), Spanned(s[n..], end, fault))
  {
    if end.Some? {
      var e := end.value;
      assert s[n..][e..] == s[n + e..];
      assert Blank(s[..n + e]) == Blank(s[..n]) + Blank(s[n..][..e]);
      match Masked(s[n + e..]) {
        case Ok(m) => assert Blank(s[..n + e]) + m == Blank(s[..n]) + (Blank(s[n..][..e]) + m);
        case Err(_) =>
      }
    }
  }

  lemma PrependTwice(a: string, b: string, r: Result<string, Fault>)
    ensures Prepend(a, Prepend(b, r)) == Prepend(a + b, r)
  {
    if r.Ok? { assert a + (b + r.value) == a + b + r.value; }
  }

  /** One step of the loop: blanks the first `n` characters or keeps the first one. */
  predicate Step(state: State, next: State, s: string, n: nat, written: string)
    requires n <= |s|
  {
    Rest(state, s) == Prepend(written, Rest(next, s[n..]))
  }

  lemma CodeStep(s: string)
    requires s != ""
    ensures Pair(s, '/', '/') ==> Step(InCode, InLine, s, 2, Blank(s[..2]))
    ensures Pair(s, '/', '*') ==> Step(InCode, InBlock(1), s, 2, Blank(s[..2]))
    ensures s[0] == '"' ==> Step(InCode, InString, s, 1, Blank(s[..1]))
    ensures TokenOf(s) == Plain ==> Step(InCode, InCode, s, 1, s[..1])
  {
    if Pair(s, '/', '/') {
      SpannedSplit(s, 2, Some(LineEnd(s[2..])), UnterminatedComment);
    } else if Pair(s, '/', '*') {
      SpannedSplit(s, 2, BlockEnd(s[2..], 1), UnterminatedComment);
    } else if s[0] == '"' {
      SpannedSplit(s, 1, StringEnd(s[1..]), UnterminatedString);
    }
  }

  lemma LiteralStep(s: string)
    requires s != "" && !Pair(s, '/', '/') && !Pair(s, '/', '*') && s[0] != '"'
    ensures s[0] == '\'' && CharLiteral(s) > 0 ==> Step(InCode, InCode, s, CharLiteral(s), Blank(s[..CharLiteral(s)]))
    ensures s[0] != '\'' && RawMark(s) > 0 ==>
      var hashes := RawOpening(s[RawMark(s)..]).value;
      var n := RawMark(s) + hashes + 1;
      n <= |s| && Step(InCode, InRaw(hashes), s, n, Blank(s[..n]))
  {
    if s[0] != '\'' && RawMark(s) > 0 {
      var hashes := RawOpening(s[RawMark(s)..]).value;
      var n := RawMark(s) + hashes + 1;
      SpannedSplit(s, n, RawEnd(s[n..], hashes), UnterminatedString);
    }
  }

  lemma PrependNothing(r: Result<string, Fault>)
    ensures Prepend("", r) == r
  {
    if r.Ok? { assert "" + r.value == r.value; }
  }

  lemma LineStep(s: string)
    requires s != ""
    ensures s[0] == '\n' ==> Step(InLine, InCode, s, 1, s[..1])
    ensures s[0] != '\n' ==> Step(InLine, InLine, s, 1, Blank(s[..1]))
  {
    if s[0] == '\n' {
      assert s[..0] == "" && s[0..] == s && Blank("") == "";
      PrependNothing(Masked(s));
      assert TokenOf(s) == Plain;
    } else {
      SpannedSplit(s, 1, Some(LineEnd(s[1..])), UnterminatedComment);
    }
  }

  lemma BlockStep(s: string, depth: nat)
    requires s != "" && depth > 0
    ensures Pair(s, '/', '*') ==> Step(InBlock(depth), InBlock(depth + 1), s, 2, Blank(s[..2]))
    ensures Pair(s, '*', '/') ==> Step(InBlock(depth), InBlock(depth - 1), s, 2, Blank(s[..2]))
    ensures !Pair(s, '/', '*') && !Pair(s, '*', '/') ==> Step(InBlock(depth), InBlock(depth), s, 1, Blank(s[..1]))
  {
    if Pair(s, '/', '*') {
      SpannedSplit(s, 2, BlockEnd(s[2..], depth + 1), UnterminatedComment);
    } else if Pair(s, '*', '/') {
      if depth > 1 { SpannedSplit(s, 2, BlockEnd(s[2..], depth - 1), UnterminatedComment); }
    } else {
      SpannedSplit(s, 1, BlockEnd(s[1..], depth), UnterminatedComment);
    }
  }

  lemma StringStep(s: string)
    requires s != ""
    ensures s[0] == '\\' && |s| >= 2 ==> Step(InString, InString, s, 2, Blank(s[..2]))
    ensures s[0] == '\\' && |s| == 1 ==> Step(InString, InString, s, 1, Blank(s[..1]))
    ensures s[0] == '"' ==> Step(InString, InCode, s, 1, Blank(s[..1]))
    ensures s[0] != '\\' && s[0] != '"' ==> Step(InString, InString, s, 1, Blank(s[..1]))
  {
    if s[0] == '\\' && |s| >= 2 {
      SpannedSplit(s, 2, StringEnd(s[2..]), UnterminatedString);
    } else if s[0] != '\\' && s[0] != '"' {
      SpannedSplit(s, 1, StringEnd(s[1..]), UnterminatedString);
    }
  }

  lemma RawStep(s: string, hashes: nat)
    requires s != ""
    ensures if "\"" + Hashes(hashes) <= s
      then Step(InRaw(hashes), InCode, s, 1 + hashes, Blank(s[..1 + hashes]))
      else Step(InRaw(hashes), InRaw(hashes), s, 1, Blank(s[..1]))
  {
    if !("\"" + Hashes(hashes) <= s) { SpannedSplit(s, 1, RawEnd(s[1..], hashes), UnterminatedString); }
  }

  /** `masked[..index]` is final and the rest still to be lexed from `state`. */
  ghost predicate Midway(source: string, masked: array<char>, index: nat, state: State)
    reads masked
  {
    && index <= masked.Length == |source|
    && masked[index..] == source[index..]
    && (state.InBlock? ==> state.depth > 0)
    && Prepend(masked[..index], Rest(state, source[index..])) == Masked(source)
  }

  lemma Advance(source: string, front: string, index: nat, state: State, written: string, next: State, n: nat)
    requires index + n <= |source| && Step(state, next, source[index..], n, written)
    ensures Prepend(front, Rest(state, source[index..])) == Prepend(front + written, Rest(next, source[index + n..]))
  {
    assert source[index..][n..] == source[index + n..];
    PrependTwice(front, written, Rest(next, source[index + n..]));
  }

  /** Blanks `n` characters; a newline stays one. */
  method Erase(masked: array<char>, index: nat, n: nat)
    requires index + n <= masked.Length
    modifies masked
    ensures masked[..index + n] == old(masked[..index]) + Blank(old(masked[index..index + n]))
    ensures masked[index + n..] == old(masked[index + n..])
  {
    for offset := 0 to n
      invariant forall k :: 0 <= k < index || index + offset <= k < masked.Length ==> masked[k] == old(masked[k])
      invariant forall k :: index <= k < index + offset ==> masked[k] == if old(masked[k]) == '\n' then '\n' else ' '
    {
      if masked[index + offset] != '\n' { masked[index + offset] := ' '; }
    }
  }

  lemma EraseStep(source: string, was: string, now: string, index: nat, n: nat, state: State, next: State)
    requires index + n <= |was| == |source| == |now| && was[index..] == source[index..]
    requires now[..index + n] == was[..index] + Blank(was[index..index + n]) && now[index + n..] == was[index + n..]
    requires Step(state, next, source[index..], n, Blank(source[index..][..n]))
    ensures now[index + n..] == source[index + n..]
    ensures Prepend(was[..index], Rest(state, source[index..]))
         == Prepend(now[..index + n], Rest(next, source[index + n..]))
  {
    assert was[index..index + n] == source[index..][..n] by {
      assert was[index..index + n] == was[index..][..n];
    }
    assert now[index + n..] == source[index + n..] by {
      assert was[index + n..] == was[index..][n..] && source[index + n..] == source[index..][n..];
    }
    Advance(source, was[..index], index, state, Blank(source[index..][..n]), next, n);
  }

  method Blanked(source: string, masked: array<char>, index: nat, n: nat, ghost state: State, ghost next: State)
    returns (end: nat)
    requires Midway(source, masked, index, state) && index + n <= |source|
    requires Step(state, next, source[index..], n, Blank(source[index..][..n])) && (next.InBlock? ==> next.depth > 0)
    modifies masked
    ensures end == index + n && Midway(source, masked, end, next)
  {
    ghost var was := masked[..];
    assert was[index..] == source[index..] && was[..index] == masked[..index];
    Erase(masked, index, n);
    end := index + n;
    assert masked[..][..end] == masked[..end] && masked[..][end..] == masked[end..];
    EraseStep(source, was, masked[..], index, n, state, next);
  }

  method Kept(source: string, masked: array<char>, index: nat, ghost state: State, ghost next: State) returns (end: nat)
    requires Midway(source, masked, index, state) && index < |source|
    requires Step(state, next, source[index..], 1, source[index..][..1]) && (next.InBlock? ==> next.depth > 0)
    ensures end == index + 1 && Midway(source, masked, end, next)
  {
    end := index + 1;
    assert masked[..end] == masked[..index] + source[index..][..1];
    assert masked[end..] == masked[index..][1..] && source[end..] == source[index..][1..];
    Advance(source, masked[..index], index, state, source[index..][..1], next, 1);
  }

  /** One turn of the loop outside comments and literals. */
  method CodeTurn(source: string, masked: array<char>, index: nat) returns (end: nat, state: State)
    requires Midway(source, masked, index, InCode) && index < |source|
    modifies masked
    ensures index < end && Midway(source, masked, end, state)
  {
    var here := source[index..];
    CodeStep(here);
    if Pair(here, '/', '/') {
      state := InLine;
      end := Blanked(source, masked, index, 2, InCode, state);
    } else if Pair(here, '/', '*') {
      state := InBlock(1);
      end := Blanked(source, masked, index, 2, InCode, state);
    } else if here[0] == '\'' {
      LiteralStep(here);
      state := InCode;
      var literal := CharLiteral(here);
      if literal > 0 {
        end := Blanked(source, masked, index, literal, InCode, state);
      } else {
        end := Kept(source, masked, index, InCode, state);
      }
    } else if here[0] == '"' {
      state := InString;
      end := Blanked(source, masked, index, 1, InCode, state);
    } else {
      LiteralStep(here);
      var mark := RawMark(here);
      if mark > 0 {
        var hashes := RawOpening(here[mark..]).value;
        state := InRaw(hashes);
        end := Blanked(source, masked, index, mark + hashes + 1, InCode, state);
      } else {
        state := InCode;
        end := Kept(source, masked, index, InCode, state);
      }
    }
  }

  method BlockTurn(source: string, masked: array<char>, index: nat, depth: nat) returns (end: nat, state: State)
    requires Midway(source, masked, index, InBlock(depth)) && index < |source|
    modifies masked
    ensures index < end && Midway(source, masked, end, state)
  {
    var here := source[index..];
    BlockStep(here, depth);
    if Pair(here, '/', '*') {
      state := InBlock(depth + 1);
      end := Blanked(source, masked, index, 2, InBlock(depth), state);
    } else if Pair(here, '*', '/') {
      state := if depth == 1 then InCode else InBlock(depth - 1);
      end := Blanked(source, masked, index, 2, InBlock(depth), state);
    } else {
      state := InBlock(depth);
      end := Blanked(source, masked, index, 1, InBlock(depth), state);
    }
  }

  method StringTurn(source: string, masked: array<char>, index: nat) returns (end: nat, state: State)
    requires Midway(source, masked, index, InString) && index < |source|
    modifies masked
    ensures index < end && Midway(source, masked, end, state)
  {
    var here := source[index..];
    StringStep(here);
    if here[0] == '\\' && index + 1 < |source| {
      state := InString;
      end := Blanked(source, masked, index, 2, InString, state);
    } else {
      state := if here[0] == '"' then InCode else InString;
      end := Blanked(source, masked, index, 1, InString, state);
    }
  }

  method RawTurn(source: string, masked: array<char>, index: nat, hashes: nat) returns (end: nat, state: State)
    requires Midway(source, masked, index, InRaw(hashes)) && index < |source|
    modifies masked
    ensures index < end && Midway(source, masked, end, state)
  {
    var here := source[index..];
    RawStep(here, hashes);
    if "\"" + Hashes(hashes) <= here {
      state := InCode;
      end := Blanked(source, masked, index, 1 + hashes, InRaw(hashes), state);
    } else {
      state := InRaw(hashes);
      end := Blanked(source, masked, index, 1, InRaw(hashes), state);
    }
  }

  method LineTurn(source: string, masked: array<char>, index: nat) returns (end: nat, state: State)
    requires Midway(source, masked, index, InLine) && index < |source|
    modifies masked
    ensures index < end && Midway(source, masked, end, state)
  {
    LineStep(source[index..]);
    if source[index] == '\n' {
      state := InCode;
      end := Kept(source, masked, index, InLine, state);
    } else {
      state := InLine;
      end := Blanked(source, masked, index, 1, InLine, state);
    }
  }

  lemma AtEnd(state: State)
    requires state.InBlock? ==> state.depth > 0
    ensures Rest(state, "") == match state
      case InBlock(_) => Err(UnterminatedComment)
      case InString => Err(UnterminatedString)
      case InRaw(_) => Err(UnterminatedString)
      case _ => Ok("")
  {
    assert Blank("") == "";
    PrependNothing(Masked(""));
  }

  /** The whole text, one loop over five states: it computes `Masked`. */
  method MaskNonCode(source: string) returns (r: Result<string, Fault>)
    ensures r == Masked(source)
  {
    var masked := new char[|source|](k requires 0 <= k < |source| => source[k]);
    var index := 0;
    var state := InCode;
    assert masked[0..] == source == source[0..];
    PrependNothing(Masked(source));
    while index < |source|
      invariant Midway(source, masked, index, state)
      decreases |source| - index
    {
      match state {
        case InLine => index, state := LineTurn(source, masked, index);
        case InBlock(depth) => index, state := BlockTurn(source, masked, index, depth);
        case InString => index, state := StringTurn(source, masked, index);
        case InRaw(hashes) => index, state := RawTurn(source, masked, index, hashes);
        case InCode => index, state := CodeTurn(source, masked, index);
      }
    }
    AtEnd(state);
    assert source[index..] == "" && masked[..index] == masked[..];
    if state.InBlock? { return Err(UnterminatedComment); }
    if state.InString? || state.InRaw? { return Err(UnterminatedString); }
    assert masked[..] + "" == masked[..];
    r := Ok(masked[..]);
  }
}
