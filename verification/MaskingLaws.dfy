/** What masked text can be relied on for: offsets and newlines survive, nothing
    in it opens a comment or a string, and masking it again changes nothing. */
module MaskingLaws {
  import opened Orders
  import opened Masking

  // -------------------------------------------------------------------------
  // The literals recognised are the ones the patterns describe.
  // -------------------------------------------------------------------------

  /** A character literal: quoted, either one character that is not a quote,
      backslash or newline, or an escape. */
  predicate IsCharLiteral(t: string) {
    && |t| >= 3 && t[0] == '\'' && t[|t| - 1] == '\''
    && var body := t[1..|t| - 1];
       || (|body| == 1 && body[0] != '\'' && body[0] != '\\' && body[0] != '\n')
       || (body[0] == '\\' && IsEscape(body[1..]))
  }

  predicate IsEscape(e: string) {
    || (|e| == 3 && e[0] == 'x' && Hex(e[1]) && Hex(e[2]))
    || (|e| >= 4 && e[0] == 'u' && e[1] == '{' && e[|e| - 1] == '}' && forall k :: 2 <= k < |e| - 1 ==> HexOrBar(e[k]))
    || (|e| == 1 && e[0] != '\n')
  }

  lemma {:induction false} HexRunIs(s: string, n: nat)
    requires n <= |s| && (forall k :: 0 <= k < n ==> HexOrBar(s[k])) && (n < |s| ==> !HexOrBar(s[n]))
    ensures HexRun(s) == n
  {
    if n > 0 { HexRunIs(s[1..], n - 1); }
  }

  lemma {:induction false} HexRunHex(s: string)
    ensures forall k :: 0 <= k < HexRun(s) ==> HexOrBar(s[k])
  {
    if s != "" && HexOrBar(s[0]) {
      HexRunHex(s[1..]);
      forall k | 0 <= k < HexRun(s) ensures HexOrBar(s[k]) {
        if k > 0 { assert s[k] == s[1..][k - 1]; }
      }
    }
  }

  lemma CharLiteralIs(s: string)
    requires CharLiteral(s) > 0
    ensures IsCharLiteral(s[..CharLiteral(s)])
  {
    hide HexRun;
    var n := CharLiteral(s);
    var t := s[..n];
    assert forall k :: 0 <= k < n ==> t[k] == s[k];
    if s[1] == '\\' {
      var e := t[1..n - 1][1..];
      assert forall k :: 0 <= k < |e| ==> e[k] == s[k + 2];
      if n > 6 {
        HexRunHex(s[4..]);
        assert forall k :: 2 <= k < |e| - 1 ==> e[k] == s[4..][k - 2];
      }
    }
  }

  lemma IsCharLiteralAt(s: string, n: nat)
    requires n <= |s| && IsCharLiteral(s[..n])
    ensures CharLiteral(s) == n
  {
    var t := s[..n];
    var body := t[1..n - 1];
    assert forall k :: 0 <= k < |body| ==> body[k] == s[k + 1];
    if body[0] == '\\' {
      hide HexRun;
      var e := body[1..];
      assert forall k :: 0 <= k < |e| ==> e[k] == s[k + 2];
      if |e| >= 4 && e[0] == 'u' {
        forall k | 0 <= k < |e| - 3 ensures HexOrBar(s[4..][k]) { assert s[4..][k] == e[k + 2]; }
        HexRunIs(s[4..], |e| - 3);
      }
    }
  }

  /** The length computed is that of the one prefix that is a character literal. */
  lemma CharLiteralExact(s: string, n: nat)
    requires 0 < n <= |s|
    ensures CharLiteral(s) == n <==> IsCharLiteral(s[..n])
  {
    if CharLiteral(s) == n { CharLiteralIs(s); }
    if IsCharLiteral(s[..n]) { IsCharLiteralAt(s, n); }
  }

  /** A raw string ends at the first quote followed by its hashes. */
  lemma {:induction false} RawEndFirst(s: string, hashes: nat)
    ensures match RawEnd(s, hashes)
      case None => forall k :: 0 <= k <= |s| ==> !("\"" + Hashes(hashes) <= s[k..])
      case Some(e) =>
        && 1 + hashes <= e && "\"" + Hashes(hashes) <= s[e - 1 - hashes..]
        && forall k :: 0 <= k < e - 1 - hashes ==> !("\"" + Hashes(hashes) <= s[k..])
  {
    hide Hashes;
    assert s[0..] == s;
    if !("\"" + Hashes(hashes) <= s) && s != "" {
      RawEndFirst(s[1..], hashes);
      assert forall k :: 1 <= k <= |s| ==> s[1..][k - 1..] == s[k..];
    }
  }

  /** The digits of an escape. */
  lemma HexDigits(c: char)
    ensures Hex(c) <==> c in "0123456789ABCDEFabcdef"
    ensures HexOrBar(c) <==> c in "0123456789ABCDEFabcdef_"
  {
    var digits := "0123456789ABCDEFabcdef_";
    if c in digits {
      var k :| 0 <= k < |digits| && digits[k] == c;
    } else {
      assert forall k :: 0 <= k < |digits| ==> digits[k] != c;
    }
  }

  lemma {:induction false} HashRunIs(s: string, n: nat)
    requires n < |s| && s[n] != '#' && forall k :: 0 <= k < n ==> s[k] == '#'
    ensures HashRun(s) == n
  {
    if n > 0 { HashRunIs(s[1..], n - 1); }
  }

  /** What stands between `r` and the body of a raw string: hashes, at most 255, and a quote. */
  lemma RawOpeningExact(s: string, n: nat)
    ensures RawOpening(s) == Some(n) <==> n <= 255 && n < |s| && s[n] == '"' && forall k :: 0 <= k < n ==> s[k] == '#'
  {
    if n < |s| && s[n] == '"' && forall k :: 0 <= k < n ==> s[k] == '#' { HashRunIs(s, n); }
  }

  function Marked(bytes: bool): string { if bytes then "br" else "r" }

  /** The characters that open a raw string. */
  function Opener(bytes: bool, hashes: nat): string { Marked(bytes) + Hashes(hashes) + "\"" }

  predicate Opens(s: string, bytes: bool, hashes: nat) { hashes <= 255 && Opener(bytes, hashes) <= s }

  /** A text opens a raw string of so many hashes exactly when it starts with their opener. */
  lemma RawTokenExact(s: string, bytes: bool, hashes: nat)
    requires |Marked(bytes)| <= |s|
    ensures RawMark(s) == |Marked(bytes)| && RawOpening(s[|Marked(bytes)|..]) == Some(hashes)
       <==> Opens(s, bytes, hashes)
  {
    var mark := |Marked(bytes)|;
    if RawMark(s) == mark && RawOpening(s[mark..]) == Some(hashes) {
      RawOpeningExact(s[mark..], hashes);
      var front := s[..mark + hashes + 1];
      assert forall k :: 0 <= k < hashes ==> front[mark + k] == s[mark..][k];
      assert front[mark + hashes] == s[mark..][hashes];
      assert front == Opener(bytes, hashes);
    }
    if Opens(s, bytes, hashes) {
      var o := Opener(bytes, hashes);
      assert forall k :: 0 <= k < |o| ==> s[k] == o[k];
      forall k | 0 <= k < hashes ensures s[mark..][k] == '#' { assert o[mark + k] == Hashes(hashes)[k]; }
      assert s[mark..][hashes] == o[mark + hashes] == '"';
      RawOpeningExact(s[mark..], hashes);
      assert s[0] == o[0] == Marked(bytes)[0] && (bytes ==> s[1] == o[1] == 'r');
    }
  }

  /** A line comment ends before the first newline, or with the text. */
  lemma {:induction false} LineEndFirst(s: string)
    ensures forall k :: 0 <= k < LineEnd(s) ==> s[k] != '\n'
    ensures LineEnd(s) == |s| || s[LineEnd(s)] == '\n'
  {
    if s != "" && s[0] != '\n' {
      LineEndFirst(s[1..]);
      forall k | 0 <= k < LineEnd(s) ensures s[k] != '\n' { if k > 0 { assert s[k] == s[1..][k - 1]; } }
    }
  }

  lemma {:induction false} LineEndIs(s: string, n: nat)
    requires n <= |s| && (forall k :: 0 <= k < n ==> s[k] != '\n') && (n < |s| ==> s[n] == '\n')
    ensures LineEnd(s) == n
  {
    if n > 0 { LineEndIs(s[1..], n - 1); }
  }

  /** How many backslashes stand right before position `k`. */
  function SlashesBefore(s: string, k: nat): nat
    requires k <= |s|
  {
    if k > 0 && s[k - 1] == '\\' then 1 + SlashesBefore(s, k - 1) else 0
  }

  predicate Escaped(s: string, k: nat)
    requires k <= |s|
  {
    SlashesBefore(s, k) % 2 == 1
  }

  lemma {:induction false} SkipOne(s: string, k: nat)
    requires s != "" && s[0] != '\\' && k < |s|
    ensures SlashesBefore(s, k + 1) == SlashesBefore(s[1..], k)
  {
    if k > 0 {
      assert s[1..][k - 1] == s[k];
      if s[k] == '\\' { SkipOne(s, k - 1); }
    }
  }

  lemma {:induction false} SkipPair(s: string, k: nat)
    requires |s| >= 2 && s[0] == '\\' && k + 2 <= |s|
    ensures Escaped(s, k + 2) == Escaped(s[2..], k)
  {
    if k > 0 {
      assert s[2..][k - 1] == s[k + 1];
      if s[k + 1] == '\\' { SkipPair(s, k - 1); }
    } else {
      assert SlashesBefore(s, 1) == 1;
    }
  }

  /** A string ends at the first quote with an even number of backslashes before it. */
  lemma {:induction false} StringEndFirst(s: string)
    ensures match StringEnd(s)
      case None => forall k :: 0 <= k < |s| && s[k] == '"' ==> Escaped(s, k)
      case Some(e) =>
        && e > 0 && s[e - 1] == '"' && !Escaped(s, e - 1)
        && forall k :: 0 <= k < e - 1 && s[k] == '"' ==> Escaped(s, k)
    decreases |s|
  {
    if s != "" && s[0] == '\\' && |s| >= 2 {
      var t := s[2..];
      StringEndFirst(t);
      assert SlashesBefore(s, 1) == 1;
      forall k | 2 <= k <= |s| ensures Escaped(s, k) == Escaped(t, k - 2) { SkipPair(s, k - 2); }
      assert forall k :: 2 <= k < |s| ==> s[k] == t[k - 2];
    } else if s != "" && s[0] != '"' && s[0] != '\\' {
      var t := s[1..];
      StringEndFirst(t);
      forall k | 1 <= k <= |s| ensures Escaped(s, k) == Escaped(t, k - 1) { SkipOne(s, k - 1); }
      assert forall k :: 1 <= k < |s| ==> s[k] == t[k - 1];
    }
  }

  // -------------------------------------------------------------------------
  // Block comments nest.
  // -------------------------------------------------------------------------

  /** What follows the opening of a block comment, up to its close. */
  datatype Comment = Close | Letter(c: char, after: Comment) | Nested(inner: Comment, after: Comment)

  function Render(c: Comment): (s: string)
    ensures |s| >= 2
  {
    match c
    case Close => "*/"
    case Letter(letter, after) => [letter] + Render(after)
    case Nested(inner, after) => "/*" + Render(inner) + Render(after)
  }

  predicate IsMark(s: string) { Pair(s, '/', '*') || Pair(s, '*', '/') }

  /** No letter is the first half of a mark. */
  predicate Proper(c: Comment) {
    match c
    case Close => true
    case Letter(_, after) => Proper(after) && !IsMark(Render(c))
    case Nested(inner, after) => Proper(inner) && Proper(after)
  }

  function Closing(depth: nat, n: nat, rest: string): Option<nat>
    requires depth > 0
  {
    if depth == 1 then Some(n) else Plus(n, BlockEnd(rest, depth - 1))
  }

  lemma {:induction false} RenderedEnds(c: Comment, rest: string, depth: nat)
    requires Proper(c) && depth > 0
    ensures BlockEnd(Render(c) + rest, depth) == Closing(depth, |Render(c)|, rest)
    decreases c
  {
    hide BlockEnd, Closing, IsMark;
    match c {
      case Close => CloseEnds(rest, depth);
      case Letter(letter, after) =>
        assert Render(c) == [letter] + Render(after);
        hide Render;
        RenderedEnds(after, rest, depth);
        LetterEnds(letter, Render(after), rest, depth);
      case Nested(inner, after) =>
        assert Render(c) == "/*" + Render(inner) + Render(after);
        hide Render;
        RenderedEnds(inner, Render(after) + rest, depth + 1);
        RenderedEnds(after, rest, depth);
        NestedEnds(Render(inner), Render(after), rest, depth);
    }
  }

  lemma CloseEnds(rest: string, depth: nat)
    requires depth > 0
    ensures BlockEnd("*/" + rest, depth) == Closing(depth, 2, rest)
  {
    var s := "*/" + rest;
    assert s[0] == '*' && s[1] == '/' && s[2..] == rest;
  }

  lemma LetterEnds(letter: char, after: string, rest: string, depth: nat)
    requires depth > 0 && after != "" && !IsMark([letter] + after)
    requires BlockEnd(after + rest, depth) == Closing(depth, |after|, rest)
    ensures BlockEnd([letter] + after + rest, depth) == Closing(depth, 1 + |after|, rest)
  {
    var s := [letter] + after + rest;
    assert s[0] == letter && s[1] == after[0] == ([letter] + after)[1] && s[1..] == after + rest;
  }

  lemma NestedEnds(inner: string, after: string, rest: string, depth: nat)
    requires depth > 0
    requires BlockEnd(inner + (after + rest), depth + 1) == Closing(depth + 1, |inner|, after + rest)
    requires BlockEnd(after + rest, depth) == Closing(depth, |after|, rest)
    ensures BlockEnd("/*" + inner + after + rest, depth) == Closing(depth, 2 + |inner| + |after|, rest)
  {
    var s := "/*" + inner + after + rest;
    assert s[0] == '/' && s[1] == '*' && s[2..] == inner + (after + rest);
  }

  /** `s` starts with `text`, after which one comment fewer is open. */
  predicate EndsText(text: string, s: string, depth: nat)
    requires depth > 0
  {
    text <= s && BlockEnd(s, depth) == Closing(depth, |text|, s[|text|..])
  }

  predicate Ends(c: Comment, s: string, depth: nat)
    requires depth > 0
  {
    EndsText(Render(c), s, depth)
  }

  lemma {:induction false} EndsRendered(s: string, depth: nat) returns (c: Comment)
    requires depth > 0 && BlockEnd(s, depth).Some?
    ensures Proper(c) && Ends(c, s, depth)
    decreases |s|
  {
    hide BlockEnd, Render, Ends;
    if Pair(s, '/', '*') {
      NestedGoesOn(s, depth);
      var inner := EndsRendered(s[2..], depth + 1);
      InnerGoesOn(s[2..], depth, inner);
      var after := EndsRendered(s[2..][|Render(inner)|..], depth);
      c := Nested(inner, after);
      NestedRendered(s, depth, inner, after);
    } else if Pair(s, '*', '/') {
      c := Close;
      CloseRendered(s, depth);
    } else {
      LetterGoesOn(s, depth);
      var after := EndsRendered(s[1..], depth);
      c := Letter(s[0], after);
      LetterRendered(s, depth, after);
    }
  }

  lemma InnerGoesOn(s: string, depth: nat, inner: Comment)
    requires depth > 0 && Ends(inner, s, depth + 1) && BlockEnd(s, depth + 1).Some?
    ensures Render(inner) <= s && BlockEnd(s[|Render(inner)|..], depth).Some?
  {
    hide BlockEnd, Render;
  }

  lemma CloseRendered(s: string, depth: nat)
    requires depth > 0 && Pair(s, '*', '/')
    ensures Ends(Close, s, depth)
  {
    assert s == "*/" + s[2..];
    CloseEnds(s[2..], depth);
    hide BlockEnd, Closing;
  }

  lemma NestedRendered(s: string, depth: nat, inner: Comment, after: Comment)
    requires depth > 0 && Pair(s, '/', '*') && Ends(inner, s[2..], depth + 1) && Render(inner) <= s[2..]
    requires Ends(after, s[2..][|Render(inner)|..], depth)
    ensures Ends(Nested(inner, after), s, depth)
  {
    assert Render(Nested(inner, after)) == "/*" + Render(inner) + Render(after);
    hide EndsText, Render;
    NestedText(s, depth, Render(inner), Render(after));
  }

  lemma NestedText(s: string, depth: nat, inner: string, after: string)
    requires depth > 0 && Pair(s, '/', '*') && EndsText(inner, s[2..], depth + 1) && inner <= s[2..]
    requires EndsText(after, s[2..][|inner|..], depth)
    ensures EndsText("/*" + inner + after, s, depth)
  {
    hide BlockEnd, Closing;
    var rest := NestedFront(s, inner, after);
    hide EndsText;
    assert BlockEnd(inner + (after + rest), depth + 1) == Closing(depth + 1, |inner|, after + rest) by {
      EndsAt(s[2..], depth + 1, inner, after + rest);
    }
    assert BlockEnd(after + rest, depth) == Closing(depth, |after|, rest) by {
      EndsAt(s[2..][|inner|..], depth, after, rest);
    }
    NestedEnds(inner, after, rest, depth);
    assert 2 + |inner| + |after| == |"/*" + inner + after|;
    EndsAt(s, depth, "/*" + inner + after, rest);
  }

  lemma EndsAt(s: string, depth: nat, text: string, rest: string)
    requires depth > 0 && s == text + rest
    ensures EndsText(text, s, depth) <==> BlockEnd(text + rest, depth) == Closing(depth, |text|, rest)
  {
    assert s[|text|..] == rest;
    hide BlockEnd, Closing;
  }

  lemma LetterRendered(s: string, depth: nat, after: Comment)
    requires s != "" && depth > 0 && !IsMark(s) && Ends(after, s[1..], depth)
    ensures Ends(Letter(s[0], after), s, depth)
    ensures !IsMark(Render(Letter(s[0], after)))
  {
    assert Render(Letter(s[0], after)) == [s[0]] + Render(after);
    hide BlockEnd, Render, Closing, IsMark;
    var rest := LetterFront(s, Render(after));
    LetterEnds(s[0], Render(after), rest, depth);
  }

  lemma NestedGoesOn(s: string, depth: nat)
    requires depth > 0 && Pair(s, '/', '*') && BlockEnd(s, depth).Some?
    ensures BlockEnd(s[2..], depth + 1).Some?
  {}

  lemma NestedFront(s: string, inner: string, after: string) returns (rest: string)
    requires Pair(s, '/', '*') && inner <= s[2..] && after <= s[2..][|inner|..]
    ensures "/*" + inner + after <= s && s == "/*" + inner + after + rest && s[2 + |inner| + |after|..] == rest
    ensures s[2..] == inner + (after + rest) && s[2..][|inner|..] == after + rest
    ensures s[2..][|inner|..][|after|..] == rest
  {
    rest := s[2..][|inner|..][|after|..];
    assert s == "/*" + s[2..] && s[2..] == inner + s[2..][|inner|..];
    assert s[2..][|inner|..] == after + rest;
  }

  lemma LetterGoesOn(s: string, depth: nat)
    requires depth > 0 && !IsMark(s) && BlockEnd(s, depth).Some?
    ensures s != "" && BlockEnd(s[1..], depth).Some?
  {}

  lemma LetterFront(s: string, after: string) returns (rest: string)
    requires s != "" && |after| >= 1 && after <= s[1..] && !IsMark(s)
    ensures [s[0]] + after <= s && s == [s[0]] + after + rest && s[1 + |after|..] == rest
    ensures s[1..] == after + rest && s[1..][|after|..] == rest && !IsMark([s[0]] + after)
  {
    rest := s[1..][|after|..];
    assert s == [s[0]] + s[1..] && after[0] == s[1..][0] == s[1];
  }

  /** A block comment ends exactly where a properly nested one does. */
  lemma BlockEndExact(s: string, e: nat)
    requires e <= |s|
    ensures BlockEnd(s, 1) == Some(e) <==> exists c :: Proper(c) && Render(c) == s[..e]
  {
    hide BlockEnd, Render, Proper;
    if BlockEnd(s, 1) == Some(e) {
      var c := EndsRendered(s, 1);
      assert Render(c) == s[..e];
    }
    if c :| Proper(c) && Render(c) == s[..e] {
      RenderedEnds(c, s[e..], 1);
      assert Render(c) + s[e..] == s;
    }
  }

  // -------------------------------------------------------------------------
  // Each comment or literal is blanked as a whole.
  // -------------------------------------------------------------------------

  lemma SpanMasked(front: string, rest: string, fault: Fault)
    requires front != "" && TokenOf(front + rest) == Span(Some(|front|), fault)
    ensures Masked(front + rest) == Prepend(Blank(front), Masked(rest))
  {
    hide TokenOf;
    assert (front + rest)[..|front|] == front && (front + rest)[|front|..] == rest;
  }

  lemma LineCommentMasked(body: string, rest: string)
    requires '\n' !in body && (rest != "" ==> rest[0] == '\n')
    ensures Masked("//" + body + rest) == Prepend(Blank("//" + body), Masked(rest))
  {
    var s := "//" + body + rest;
    assert s[2..] == body + rest;
    LineEndIs(body + rest, |body|);
    SpanMasked("//" + body, rest, UnterminatedComment);
  }

  /** Nested comments included. */
  lemma CommentMasked(c: Comment, rest: string)
    requires Proper(c)
    ensures Masked("/*" + Render(c) + rest) == Prepend(Blank("/*" + Render(c)), Masked(rest))
  {
    assert BlockEnd(Render(c) + rest, 1) == Some(|Render(c)|) by { RenderedEnds(c, rest, 1); }
    hide *;
    CommentSpan(Render(c), rest);
  }

  lemma CommentSpan(body: string, rest: string)
    requires BlockEnd(body + rest, 1) == Some(|body|)
    ensures Masked("/*" + body + rest) == Prepend(Blank("/*" + body), Masked(rest))
  {
    CommentToken(body, rest);
    hide *;
    var front := "/*" + body;
    assert |front| == 2 + |body|;
    SpanMasked(front, rest, UnterminatedComment);
  }

  lemma CommentToken(body: string, rest: string)
    requires BlockEnd(body + rest, 1) == Some(|body|)
    ensures TokenOf("/*" + body + rest) == Span(Some(2 + |body|), UnterminatedComment)
  {
    hide BlockEnd;
    assert ("/*" + body + rest)[2..] == body + rest;
  }

  lemma StringMasked(body: string, rest: string)
    requires !Escaped(body, |body|) && forall k :: 0 <= k < |body| && body[k] == '"' ==> Escaped(body, k)
    ensures Masked("\"" + body + "\"" + rest) == Prepend(Blank("\"" + body + "\""), Masked(rest))
  {
    var s, t := "\"" + body + "\"" + rest, body + "\"" + rest;
    assert s[1..] == t;
    forall k | 0 <= k <= |body| ensures Escaped(t, k) == Escaped(body, k) { SlashesOfFront(t, body, k); }
    StringEndFirst(t);
    assert t[|body|] == '"' && forall k :: 0 <= k < |body| ==> t[k] == body[k];
    assert StringEnd(t) == Some(|body| + 1);
    SpanMasked("\"" + body + "\"", rest, UnterminatedString);
  }

  lemma {:induction false} SlashesOfFront(s: string, front: string, k: nat)
    requires front <= s && k <= |front|
    ensures SlashesBefore(s, k) == SlashesBefore(front, k)
  {
    if k > 0 { SlashesOfFront(s, front, k - 1); }
  }

  /** The characters that close a raw string. */
  function Closer(hashes: nat): string { "\"" + Hashes(hashes) }

  /** A closing mark that starts in the body lies in the body. */
  lemma NoneAcross(body: string, hashes: nat, rest: string, k: nat)
    requires k < |body|
    ensures Closer(hashes) <= (body + Closer(hashes) + rest)[k..] ==> Closer(hashes) <= body[k..]
  {
    var t, close, left := (body + Closer(hashes) + rest)[k..], Closer(hashes), |body| - k;
    assert body[k..] <= t;
    if |close| <= left {
      assert t[..|close|] == body[k..][..|close|];
    } else {
      assert t[left] == Closer(hashes)[0] == '"' && close[left] == Hashes(hashes)[left - 1] == '#';
    }
  }

  /** A raw string, byte string or not: everything up to and including the first closing mark. */
  lemma RawStringMasked(bytes: bool, hashes: nat, body: string, rest: string)
    requires hashes <= 255 && forall k :: 0 <= k < |body| ==> !(Closer(hashes) <= body[k..])
    ensures var literal := Opener(bytes, hashes) + body + Closer(hashes);
      Masked(literal + rest) == Prepend(Blank(literal), Masked(rest))
  {
    RawBodyEnds(body, hashes, rest);
    RawOpens(bytes, hashes, body + Closer(hashes) + rest);
    hide Masked, Blank, RawEnd, TokenOf;
    assert |Closer(hashes)| == 1 + hashes && |Opener(bytes, hashes)| > 0;
    RawSpan(Opener(bytes, hashes), body, Closer(hashes), rest);
  }

  lemma RawSpan(opener: string, body: string, closer: string, rest: string)
    requires opener != ""
    requires TokenOf(opener + (body + closer + rest)) == Span(Some(|opener| + |body| + |closer|), UnterminatedString)
    ensures Masked(opener + body + closer + rest) == Prepend(Blank(opener + body + closer), Masked(rest))
  {
    hide *;
    var literal := opener + body + closer;
    assert literal + rest == opener + (body + closer + rest);
    SpanMasked(literal, rest, UnterminatedString);
  }

  lemma RawBodyEnds(body: string, hashes: nat, rest: string)
    requires forall k :: 0 <= k < |body| ==> !(Closer(hashes) <= body[k..])
    ensures RawEnd(body + Closer(hashes) + rest, hashes) == Some(|body| + 1 + hashes)
  {
    var t := body + Closer(hashes) + rest;
    RawEndFirst(t, hashes);
    hide RawEnd, Hashes;
    forall k | 0 <= k < |body| ensures !(Closer(hashes) <= t[k..]) { NoneAcross(body, hashes, rest, k); }
    assert t[|body|..] == Closer(hashes) + rest;
  }

  lemma RawOpens(bytes: bool, hashes: nat, t: string)
    requires hashes <= 255
    ensures TokenOf(Opener(bytes, hashes) + t)
         == Span(Plus(|Opener(bytes, hashes)|, RawEnd(t, hashes)), UnterminatedString)
  {
    var s, mark := Opener(bytes, hashes) + t, |Marked(bytes)|;
    assert s[mark + hashes + 1..] == t;
    RawTokenExact(s, bytes, hashes);
    assert s[0] == Marked(bytes)[0];
    hide RawEnd, RawMark, RawOpening, Hashes;
  }

  lemma CharMasked(literal: string, rest: string)
    requires IsCharLiteral(literal)
    ensures Masked(literal + rest) == Prepend(Blank(literal), Masked(rest))
  {
    assert (literal + rest)[..|literal|] == literal;
    IsCharLiteralAt(literal + rest, |literal|);
    SpanMasked(literal, rest, UnterminatedString);
  }

  /** A character is kept exactly where no comment and no literal starts. */
  lemma PlainExact(s: string)
    requires s != ""
    ensures TokenOf(s) == Plain
       <==> && !("//" <= s) && !("/*" <= s) && s[0] != '"'
            && (forall n :: 0 < n <= |s| ==> !IsCharLiteral(s[..n]))
            && (forall bytes, hashes: nat :: !Opens(s, bytes, hashes))
  {
    assert "//" <= s <==> Pair(s, '/', '/');
    assert "/*" <= s <==> Pair(s, '/', '*');
    NoLiteral(s);
    NoOpener(s);
    hide CharLiteral, IsCharLiteral, RawMark, Opens, LineEnd, BlockEnd, StringEnd, RawEnd;
    assert CharLiteral(s) > 0 ==> s[0] == '\'' by { StartsQuoted(s); }
    assert RawMark(s) > 0 ==> s[0] == 'b' || s[0] == 'r' by { StartsMarked(s); }
  }

  lemma StartsQuoted(s: string)
    ensures CharLiteral(s) > 0 ==> s[0] == '\''
  {}

  lemma StartsMarked(s: string)
    ensures RawMark(s) > 0 ==> s[0] == 'b' || s[0] == 'r'
  {}

  lemma NoLiteral(s: string)
    ensures CharLiteral(s) == 0 <==> forall n :: 0 < n <= |s| ==> !IsCharLiteral(s[..n])
  {
    hide IsCharLiteral;
    forall n | 0 < n <= |s| ensures CharLiteral(s) == n <==> IsCharLiteral(s[..n]) { CharLiteralExact(s, n); }
    assert CharLiteral(s) > 0 ==> IsCharLiteral(s[..CharLiteral(s)]);
  }

  lemma NoOpener(s: string)
    ensures RawMark(s) == 0 <==> forall bytes, hashes: nat :: !Opens(s, bytes, hashes)
  {
    hide Opens, RawOpening;
    forall bytes, hashes: nat
      ensures Opens(s, bytes, hashes) ==> |Marked(bytes)| <= |s| && RawMark(s) == |Marked(bytes)|
      ensures |Marked(bytes)| <= |s| && RawMark(s) == |Marked(bytes)| ==>
        (RawOpening(s[|Marked(bytes)|..]) == Some(hashes) <==> Opens(s, bytes, hashes))
    {
      LongEnough(s, bytes, hashes);
      if |Marked(bytes)| <= |s| { RawTokenExact(s, bytes, hashes); }
    }
    if RawMark(s) > 0 {
      MarkOpens(s);
      var hashes := RawOpening(s[RawMark(s)..]).value;
      assert Opens(s, RawMark(s) == 2, hashes);
    }
  }

  lemma LongEnough(s: string, bytes: bool, hashes: nat)
    ensures Opens(s, bytes, hashes) ==> |Marked(bytes)| <= |s|
  {}

  lemma MarkOpens(s: string)
    ensures RawMark(s) > 0 ==> RawOpening(s[RawMark(s)..]).Some?
  {}

  // -------------------------------------------------------------------------
  // Masking only writes blanks.
  // -------------------------------------------------------------------------

  predicate OnlyBlanked(s: string, m: string) {
    |s| == |m| && forall k :: 0 <= k < |s| ==> m[k] == s[k] || (m[k] == ' ' && s[k] != '\n')
  }

  /** Every offset means the same character or a blank, and every newline stays. */
  lemma {:induction false} MaskedOnlyBlanks(s: string)
    ensures Masked(s).Ok? ==> OnlyBlanked(s, Masked(s).value)
    decreases |s|
  {
    if s != "" {
      match TokenOf(s) {
        case Plain => MaskedOnlyBlanks(s[1..]);
        case Span(None, _) =>
        case Span(Some(e), _) => MaskedOnlyBlanks(s[e..]);
      }
    }
  }

  /** A blank that replaced something stands beside another blank or newline. */
  predicate Blankish(c: char) { c == ' ' || c == '\n' }

  predicate NotAlone(m: string, k: nat)
    requires k < |m|
  {
    (k > 0 && Blankish(m[k - 1])) || (k + 1 < |m| && Blankish(m[k + 1]))
  }

  ghost predicate ChangesNotAlone(s: string, m: string)
    requires |s| == |m|
  {
    forall k :: 0 <= k < |s| && m[k] != s[k] ==> NotAlone(m, k)
  }

  lemma BlankNotAlone(s: string, m: string, blank: string, rest: string)
    requires 2 <= |blank| && m == blank + rest && |s| == |m|
    requires forall k :: 0 <= k < |blank| ==> Blankish(blank[k])
    requires ChangesNotAlone(s[|blank|..], rest)
    ensures ChangesNotAlone(s, m)
  {
    forall k | 0 <= k < |s| && m[k] != s[k] ensures NotAlone(m, k) {
      if k >= |blank| {
        assert NotAlone(rest, k - |blank|);
      } else if k == 0 {
        assert Blankish(m[1]);
      } else {
        assert Blankish(m[k - 1]);
      }
    }
  }

  lemma KeptNotAlone(s: string, m: string, rest: string)
    requires s != "" && m == s[..1] + rest && |s| == |m| && ChangesNotAlone(s[1..], rest)
    ensures ChangesNotAlone(s, m)
  {
    forall k | 0 <= k < |s| && m[k] != s[k] ensures NotAlone(m, k) {
      assert k > 0 && NotAlone(rest, k - 1);
    }
  }

  lemma {:induction false} MaskedNotAlone(s: string)
    requires Masked(s).Ok?
    ensures |s| == |Masked(s).value| && ChangesNotAlone(s, Masked(s).value)
    decreases |s|
  {
    MaskedOnlyBlanks(s);
    if s != "" {
      var e := match TokenOf(s) case Plain => 1 case Span(end, _) => end.value;
      MaskedNotAlone(s[e..]);
      if TokenOf(s).Plain? {
        KeptNotAlone(s, Masked(s).value, Masked(s[1..]).value);
      } else {
        BlankNotAlone(s, Masked(s).value, Blank(s[..e]), Masked(s[e..]).value);
      }
    }
  }

  // -------------------------------------------------------------------------
  // Nothing in masked text opens a comment or a string.
  // -------------------------------------------------------------------------

  ghost predicate Inert(m: string) {
    forall k :: 0 <= k < |m| ==>
      m[k] != '"' && !(m[k] == '/' && k + 1 < |m| && (m[k + 1] == '/' || m[k + 1] == '*'))
  }

  lemma InertConcat(a: string, b: string)
    requires Inert(a) && Inert(b)
    requires a != "" && a[|a| - 1] == '/' && b != "" ==> b[0] != '/' && b[0] != '*'
    ensures Inert(a + b)
  {
    forall k | 0 <= k < |a + b| && (a + b)[k] == '/' && k + 1 < |a + b|
      ensures (a + b)[k + 1] != '/' && (a + b)[k + 1] != '*'
    {
      if k >= |a| { assert b[k - |a|] == '/'; }
      else if k == |a| - 1 { assert a[|a| - 1] == '/'; }
      else { assert a[k] == '/'; }
    }
  }

  /** No quote, no `//` and no slash-star is left. */
  lemma {:induction false} MaskedIsInert(s: string)
    requires Masked(s).Ok?
    ensures Inert(Masked(s).value)
    decreases |s|
  {
    if s != "" {
      var e := match TokenOf(s) case Plain => 1 case Span(end, _) => end.value;
      MaskedIsInert(s[e..]);
      MaskedOnlyBlanks(s[e..]);
      var rest := Masked(s[e..]).value;
      InertConcat(if TokenOf(s).Plain? then s[..1] else Blank(s[..e]), rest);
    }
  }

  // -------------------------------------------------------------------------
  // Masking twice is masking once.
  // -------------------------------------------------------------------------

  /** A blanked stretch cannot lie inside a character literal of the masked text. */
  lemma LiteralUnchanged(s: string, m: string, n: nat)
    requires OnlyBlanked(s, m) && ChangesNotAlone(s, m)
    requires n <= |m| && IsCharLiteral(m[..n]) && m[0] == s[0]
    ensures s[..n] == m[..n]
  {
    forall k | 0 <= k < n ensures s[k] == m[k] {
      if m[k] == ' ' { LiteralBlank(m, n, k); }
    }
  }

  /** In a character literal a blank has no blank beside it. */
  lemma LiteralBlank(m: string, n: nat, k: nat)
    requires n <= |m| && IsCharLiteral(m[..n]) && k < n && m[k] == ' '
    ensures !NotAlone(m, k)
  {
    var t := m[..n];
    var body := t[1..n - 1];
    forall j | 0 <= j < |body| ensures body[j] == m[j + 1] { assert t[j + 1] == m[j + 1]; }
    if body[0] == '\\' {
      var e := body[1..];
      assert forall j :: 0 <= j < |e| ==> e[j] == m[j + 2];
      assert 2 <= k < n - 1 && e[k - 2] == ' ';
      assert !HexOrBar(' ') && !Hex(' ');
      assert |e| == 1;
    }
  }

  lemma PlainStays(s: string, c: char, m: string)
    requires s != "" && c == s[0] && TokenOf(s) == Plain && Masked(s[1..]) == Ok(m)
    ensures TokenOf([c] + m) == Plain
  {
    var masked := [c] + m;
    assert Masked(s).Ok? && s[..1] == [c] && Masked(s).value == masked;
    MaskedOnlyBlanks(s);
    MaskedNotAlone(s);
    MaskedIsInert(s);
    assert masked[0] == c;
    if c == '\'' && CharLiteral(masked) > 0 {
      var n := CharLiteral(masked);
      CharLiteralIs(masked);
      LiteralUnchanged(s, masked, n);
      IsCharLiteralAt(s, n);
    }
    NoRawInert(masked);
  }

  lemma OpeningHasQuote(s: string)
    ensures RawOpening(s).Some? ==> '"' in s
  {}

  lemma NoRawInert(m: string)
    requires Inert(m)
    ensures RawMark(m) == 0
  {
    forall k: nat | k <= |m| ensures RawOpening(m[k..]).None? {
      OpeningHasQuote(m[k..]);
      assert forall j :: 0 <= j < |m[k..]| ==> m[k..][j] == m[k + j];
    }
  }

  lemma BlankIsPlain(s: string)
    requires s != "" && Blankish(s[0])
    ensures TokenOf(s) == Plain
  {}

  lemma PlainKept(c: char, m: string)
    requires TokenOf([c] + m) == Plain && Masked(m) == Ok(m)
    ensures Masked([c] + m) == Ok([c] + m)
  {
    hide TokenOf;
    assert ([c] + m)[..1] == [c] && ([c] + m)[1..] == m;
  }

  lemma {:induction false} BlanksArePlain(blank: string, m: string)
    requires Masked(m) == Ok(m) && forall k :: 0 <= k < |blank| ==> Blankish(blank[k])
    ensures Masked(blank + m) == Ok(blank + m)
  {
    hide TokenOf, Masked;
    if blank == "" {
      assert blank + m == m;
    } else {
      assert blank + m == [blank[0]] + (blank[1..] + m);
      BlanksArePlain(blank[1..], m);
      BlankIsPlain([blank[0]] + (blank[1..] + m));
      PlainKept(blank[0], blank[1..] + m);
    }
  }

  /** Masking accepts its own output and leaves it as it is. */
  lemma {:induction false} MaskedIdempotent(s: string)
    requires Masked(s).Ok?
    ensures Masked(Masked(s).value) == Ok(Masked(s).value)
    decreases |s|
  {
    if s != "" {
      var e := match TokenOf(s) case Plain => 1 case Span(end, _) => end.value;
      MaskedIdempotent(s[e..]);
      var m := Masked(s[e..]).value;
      if TokenOf(s).Plain? {
        PlainStays(s, s[0], m);
        var masked := Masked(s).value;
        assert masked == [s[0]] + m && masked[..1] == [s[0]] && masked[1..] == m;
      } else {
        BlanksArePlain(Blank(s[..e]), m);
      }
    }
  }
}
