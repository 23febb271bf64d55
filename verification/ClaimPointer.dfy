/** JSON pointers to token claims: escaping a claim name, and checking a configured pointer. */
module ClaimPointer {
  import opened Signals
  import opened Text

  const MAX_POINTER_BYTES: nat := 1_024

  /** Every occurrence of a character replaced by a text. */
  function Replace(s: string, c: char, with: string): string {
    if s == [] then [] else (if s[0] == c then with else [s[0]]) + Replace(s[1..], c, with)
  }

  function Escape(claim: string): string {
    Replace(Replace(claim, '~', "~0"), '/', "~1")
  }

  function TopLevelClaimPointer(claim: string): string {
    ['/'] + Escape(claim)
  }

  predicate StartsWithDigit(s: string) {
    s != [] && (s[0] == '0' || s[0] == '1')
  }

  /** The check on the pieces between tildes: all but the first start with 0 or 1. */
  predicate PassesTildeCheck(pointer: string) {
    var parts := Split(pointer, '~');
    forall i :: 1 <= i < |parts| ==> StartsWithDigit(parts[i])
  }

  predicate HasControl(s: string) {
    exists i :: 0 <= i < |s| && IsControl(s[i])
  }

  function ValidatedClaimPointer(configured: string): Option<string> {
    var pointer := Trim(configured);
    if pointer == [] || pointer[0] != '/' || Utf8Length(pointer) > MAX_POINTER_BYTES || HasControl(pointer)
       || !PassesTildeCheck(pointer)
    then None else Some(pointer)
  }

  // ---------------------------------------------------------------------------
  // The reference: RFC 6901
  // ---------------------------------------------------------------------------

  /** Section 3 of RFC 6901: a tilde occurs only as part of an escape. */
  predicate EscapesValid(s: string) {
    forall i :: 0 <= i < |s| && s[i] == '~' ==> i + 1 < |s| && (s[i + 1] == '0' || s[i + 1] == '1')
  }

  /** Section 3 of RFC 6901: the reference tokens of a pointer that starts with a slash. */
  function ReferenceTokens(pointer: string): seq<string> {
    Split(pointer, '/')[1..]
  }

  function ReplacePair(s: string, c: char, d: char, with: char): string {
    if s == [] then []
    else if |s| >= 2 && s[0] == c && s[1] == d then [with] + ReplacePair(s[2..], c, d, with)
    else [s[0]] + ReplacePair(s[1..], c, d, with)
  }

  /** Section 4 of RFC 6901: first every ~1 becomes a slash, then every ~0 a tilde. */
  function Evaluate(token: string): string {
    ReplacePair(ReplacePair(token, '~', '1', '/'), '~', '0', '~')
  }

  // ---------------------------------------------------------------------------
  // The tilde check
  // ---------------------------------------------------------------------------

  lemma {:induction false} EscapesValidCons(c: char, s: string)
    ensures EscapesValid([c] + s) <==> EscapesValid(s) && (c == '~' ==> StartsWithDigit(s))
  {
    var all := [c] + s;
    if EscapesValid(all) {
      forall i | 0 <= i < |s| && s[i] == '~' ensures i + 1 < |s| && (s[i + 1] == '0' || s[i + 1] == '1') {
        assert all[i + 1] == '~';
        assert i + 2 < |all| && all[i + 2] == s[i + 1];
      }
      assert c == '~' ==> all[0] == '~' && all[1] == s[0];
    }
    if EscapesValid(s) && (c == '~' ==> StartsWithDigit(s)) {
      forall i | 0 <= i < |all| && all[i] == '~' ensures i + 1 < |all| && (all[i + 1] == '0' || all[i + 1] == '1') {
        if i > 0 {
          assert s[i - 1] == '~';
        }
        assert all[i + 1] == s[i];
      }
    }
  }

  /** The first piece is what precedes the first tilde. */
  lemma {:induction false} FirstPiece(s: string)
    ensures StartsWithDigit(Split(s, '~')[0]) <==> StartsWithDigit(s)
  {}

  lemma {:induction false} TildeCheckCons(c: char, s: string)
    ensures PassesTildeCheck([c] + s) <==> PassesTildeCheck(s) && (c == '~' ==> StartsWithDigit(Split(s, '~')[0]))
  {
    var all := [c] + s;
    assert all[1..] == s;
    var parts, rest := Split(all, '~'), Split(s, '~');
    if c == '~' {
      assert parts == [""] + rest;
      assert parts[1] == rest[0];
      if PassesTildeCheck(all) {
        forall i | 1 <= i < |rest| ensures StartsWithDigit(rest[i]) {
          assert rest[i] == parts[i + 1];
        }
      }
      if PassesTildeCheck(s) && StartsWithDigit(rest[0]) {
        forall i | 1 <= i < |parts| ensures StartsWithDigit(parts[i]) {
          assert parts[i] == rest[i - 1];
        }
      }
    } else {
      assert |parts| == |rest| && forall i :: 1 <= i < |parts| ==> parts[i] == rest[i];
    }
  }

  /** The check on the pieces is the rule of the standard. */
  lemma {:induction false} TildeCheckIsRule(s: string)
    ensures PassesTildeCheck(s) <==> EscapesValid(s)
    decreases |s|
  {
    if s != [] {
      var rest := s[1..];
      TildeCheckIsRule(rest);
      EscapesValidCons(s[0], rest);
      FirstPiece(rest);
      assert s == [s[0]] + rest;
      TildeCheckCons(s[0], rest);
    }
  }

  // ---------------------------------------------------------------------------
  // Escaping and evaluating are inverse
  // ---------------------------------------------------------------------------

  /** Every tilde is followed by a zero, as after the first pass of escaping. */
  predicate TildeZero(s: string) {
    forall i :: 0 <= i < |s| && s[i] == '~' ==> i + 1 < |s| && s[i + 1] == '0'
  }

  predicate StartsWithZero(s: string) {
    s != [] && s[0] == '0'
  }

  lemma {:induction false} TildeZeroCons(c: char, s: string)
    ensures TildeZero([c] + s) <==> TildeZero(s) && (c == '~' ==> StartsWithZero(s))
  {
    var all := [c] + s;
    if TildeZero(all) {
      forall i | 0 <= i < |s| && s[i] == '~' ensures i + 1 < |s| && s[i + 1] == '0' {
        assert all[i + 1] == '~';
        assert i + 2 < |all| && all[i + 2] == s[i + 1];
      }
      assert c == '~' ==> all[0] == '~' && all[1] == s[0];
    }
    if TildeZero(s) && (c == '~' ==> StartsWithZero(s)) {
      forall i | 0 <= i < |all| && all[i] == '~' ensures i + 1 < |all| && all[i + 1] == '0' {
        if i > 0 {
          assert s[i - 1] == '~';
        }
        assert all[i + 1] == s[i];
      }
    }
  }

  lemma {:induction false} FirstPass(claim: string)
    ensures TildeZero(Replace(claim, '~', "~0"))
    ensures ReplacePair(Replace(claim, '~', "~0"), '~', '0', '~') == claim
    decreases |claim|
  {
    if claim != [] {
      FirstPass(claim[1..]);
      var rest, all := Replace(claim[1..], '~', "~0"), Replace(claim, '~', "~0");
      if claim[0] == '~' {
        assert all == ['~'] + (['0'] + rest);
        assert all[2..] == rest;
        TildeZeroCons('0', rest);
        TildeZeroCons('~', ['0'] + rest);
      } else {
        assert all == [claim[0]] + rest;
        assert all[1..] == rest;
        TildeZeroCons(claim[0], rest);
      }
      assert claim == [claim[0]] + claim[1..];
    }
  }

  /** The second pass leaves no slash and only valid escapes. */
  lemma {:induction false} SecondPassIsValid(s: string)
    requires TildeZero(s)
    ensures '/' !in Replace(s, '/', "~1") && EscapesValid(Replace(s, '/', "~1"))
    ensures StartsWithZero(s) ==> StartsWithZero(Replace(s, '/', "~1"))
    decreases |s|
  {
    if s != [] {
      var rest := Replace(s[1..], '/', "~1");
      TildeZeroCons(s[0], s[1..]);
      assert s == [s[0]] + s[1..];
      SecondPassIsValid(s[1..]);
      if s[0] == '/' {
        assert Replace(s, '/', "~1") == ['~'] + (['1'] + rest);
        EscapesValidCons('1', rest);
        EscapesValidCons('~', ['1'] + rest);
      } else {
        EscapesValidCons(s[0], rest);
      }
    }
  }

  lemma {:induction false} SecondPass(s: string)
    requires TildeZero(s)
    ensures ReplacePair(Replace(s, '/', "~1"), '~', '1', '/') == s
    decreases |s|
  {
    if s != [] {
      var rest, all := Replace(s[1..], '/', "~1"), Replace(s, '/', "~1");
      TildeZeroCons(s[0], s[1..]);
      assert s == [s[0]] + s[1..];
      SecondPass(s[1..]);
      SecondPassIsValid(s[1..]);
      if s[0] == '/' {
        assert all[2..] == rest;
      } else {
        assert all[1..] == rest;
        assert s[0] == '~' ==> all[1] == rest[0] == '0';
      }
    }
  }

  /**
   * The pointer to a claim is a single token that passes the check, and evaluating the token
   * as the standard says gives the claim back.
   */
  lemma {:induction false} PointerNamesClaim(claim: string)
    ensures ReferenceTokens(TopLevelClaimPointer(claim)) == [Escape(claim)]
    ensures EscapesValid(TopLevelClaimPointer(claim)) && PassesTildeCheck(TopLevelClaimPointer(claim))
    ensures Evaluate(Escape(claim)) == claim
  {
    FirstPass(claim);
    SecondPass(Replace(claim, '~', "~0"));
    SecondPassIsValid(Replace(claim, '~', "~0"));
    SplitWithout(Escape(claim), '/');
    assert TopLevelClaimPointer(claim)[1..] == Escape(claim);
    EscapesValidCons('/', Escape(claim));
    TildeCheckIsRule(TopLevelClaimPointer(claim));
  }

  /** Different claims have different pointers. */
  lemma {:induction false} PointersDiffer(a: string, b: string)
    requires TopLevelClaimPointer(a) == TopLevelClaimPointer(b)
    ensures a == b
  {
    PointerNamesClaim(a);
    PointerNamesClaim(b);
    assert Escape(a) == TopLevelClaimPointer(a)[1..] == Escape(b);
  }

  lemma {:induction false} UndoEscapedSlash(rest: string)
    ensures ReplacePair("~1" + rest, '~', '1', '/') == ['/'] + ReplacePair(rest, '~', '1', '/')
    ensures Replace(['/'] + ReplacePair(rest, '~', '1', '/'), '/', "~1")
      == "~1" + Replace(ReplacePair(rest, '~', '1', '/'), '/', "~1")
  {
    assert ("~1" + rest)[2..] == rest;
    assert (['/'] + ReplacePair(rest, '~', '1', '/'))[1..] == ReplacePair(rest, '~', '1', '/');
  }

  /** Undoing the second pass, on tokens without slashes. */
  lemma {:induction false} UndoSecondPass(token: string)
    requires EscapesValid(token) && '/' !in token
    ensures Replace(ReplacePair(token, '~', '1', '/'), '/', "~1") == token
    ensures TildeZero(ReplacePair(token, '~', '1', '/'))
    ensures StartsWithZero(token) ==> StartsWithZero(ReplacePair(token, '~', '1', '/'))
    decreases |token|
  {
    if token != [] {
      EscapesValidCons(token[0], token[1..]);
      assert token == [token[0]] + token[1..];
      if |token| >= 2 && token[0] == '~' && token[1] == '1' {
        UndoEscapedSlash(token[2..]);
        assert token[1..] == [token[1]] + token[2..];
        EscapesValidCons(token[1], token[2..]);
        UndoSecondPass(token[2..]);
        TildeZeroCons('/', ReplacePair(token[2..], '~', '1', '/'));
        assert token == "~1" + token[2..];
      } else {
        var rest := ReplacePair(token[1..], '~', '1', '/');
        UndoSecondPass(token[1..]);
        TildeZeroCons(token[0], rest);
        assert ([token[0]] + rest)[1..] == rest;
      }
    }
  }

  lemma {:induction false} UndoFirstPass(s: string)
    requires TildeZero(s)
    ensures Replace(ReplacePair(s, '~', '0', '~'), '~', "~0") == s
    decreases |s|
  {
    if s != [] {
      TildeZeroCons(s[0], s[1..]);
      assert s == [s[0]] + s[1..];
      var claim := ReplacePair(s, '~', '0', '~');
      if s[0] == '~' {
        assert s == "~0" + s[2..];
        TildeZeroCons(s[1], s[2..]);
        assert s[1..] == [s[1]] + s[2..];
        UndoFirstPass(s[2..]);
        assert claim[1..] == ReplacePair(s[2..], '~', '0', '~');
      } else {
        UndoFirstPass(s[1..]);
        assert claim[1..] == ReplacePair(s[1..], '~', '0', '~');
      }
    }
  }

  /** Every valid token is the escaped form of the name it evaluates to. */
  lemma {:induction false} TokensAreEscapes(token: string)
    requires EscapesValid(token) && '/' !in token
    ensures Escape(Evaluate(token)) == token
  {
    UndoSecondPass(token);
    UndoFirstPass(ReplacePair(token, '~', '1', '/'));
  }

  // ---------------------------------------------------------------------------
  // When the validation accepts the pointer of a claim
  // ---------------------------------------------------------------------------

  function Count(s: string, c: char): nat {
    if s == [] then 0 else Count(s[1..], c) + if s[0] == c then 1 else 0
  }

  /** One pass: each replaced character becomes two of one byte each. */
  lemma {:induction false} ReplaceLength(s: string, c: char, digit: char)
    requires (c == '~' || c == '/') && (digit == '0' || digit == '1')
    ensures Utf8Length(Replace(s, c, ['~', digit])) == Utf8Length(s) + Count(s, c)
    ensures c == '~' ==> Count(Replace(s, c, ['~', digit]), '/') == Count(s, '/')
    decreases |s|
  {
    if s != [] {
      var rest := s[1..];
      ReplaceLength(rest, c, digit);
      var r, tail := Replace(s, c, ['~', digit]), Replace(rest, c, ['~', digit]);
      if s[0] == c {
        assert r == ['~'] + ([digit] + tail);
        assert r[1..] == [digit] + tail && r[1..][1..] == tail;
      } else {
        assert r == [s[0]] + tail;
        assert r[1..] == tail;
      }
    }
  }

  lemma {:induction false} ControlCons(c: char, s: string)
    ensures HasControl([c] + s) <==> IsControl(c) || HasControl(s)
  {
    var all := [c] + s;
    assert all[0] == c;
    if HasControl(s) {
      var i :| 0 <= i < |s| && IsControl(s[i]);
      assert all[i + 1] == s[i];
    }
  }

  /** One pass neither adds nor removes control characters. */
  lemma {:induction false} ReplaceControl(s: string, c: char, digit: char)
    requires (c == '~' || c == '/') && (digit == '0' || digit == '1')
    ensures HasControl(Replace(s, c, ['~', digit])) <==> HasControl(s)
    decreases |s|
  {
    if s != [] {
      var rest := s[1..];
      ReplaceControl(rest, c, digit);
      var tail := Replace(rest, c, ['~', digit]);
      ControlCons(s[0], rest);
      assert s == [s[0]] + rest;
      if s[0] == c {
        assert Replace(s, c, ['~', digit]) == ['~'] + ([digit] + tail);
        ControlCons(digit, tail);
        ControlCons('~', [digit] + tail);
      } else {
        ControlCons(s[0], tail);
      }
    }
  }

  lemma {:induction false} ReplaceLast(s: string, c: char, digit: char)
    requires s != []
    ensures var r := Replace(s, c, ['~', digit]);
      r != [] && r[|r| - 1] == if s[|s| - 1] == c then digit else s[|s| - 1]
    decreases |s|
  {
    var rest := s[1..];
    if rest != [] {
      ReplaceLast(rest, c, digit);
    }
  }

  /** The bytes of the escaped claim with its slash. */
  function PointerBytes(claim: string): nat {
    1 + Utf8Length(claim) + Count(claim, '~') + Count(claim, '/')
  }

  lemma {:induction false} EscapeLength(claim: string)
    ensures Utf8Length(Escape(claim)) == PointerBytes(claim) - 1
  {
    ReplaceLength(claim, '~', '0');
    ReplaceLength(Replace(claim, '~', "~0"), '/', '1');
  }

  lemma {:induction false} EscapeControl(claim: string)
    ensures HasControl(Escape(claim)) <==> HasControl(claim)
  {
    ReplaceControl(claim, '~', '0');
    ReplaceControl(Replace(claim, '~', "~0"), '/', '1');
  }

  lemma {:induction false} EscapeLast(claim: string)
    ensures claim == [] <==> Escape(claim) == []
    ensures claim != [] ==>
      (IsWhitespace(Escape(claim)[|Escape(claim)| - 1]) <==> IsWhitespace(claim[|claim| - 1]))
  {
    if claim != [] {
      ReplaceLast(claim, '~', '0');
      ReplaceLast(Replace(claim, '~', "~0"), '/', '1');
    }
  }

  /** The slash in front of an escaped claim adds one byte and nothing else. */
  lemma {:induction false} SlashInFront(escaped: string)
    ensures var pointer := ['/'] + escaped;
      && Utf8Length(pointer) == 1 + Utf8Length(escaped)
      && (HasControl(pointer) <==> HasControl(escaped))
      && (Trim(pointer) == pointer <==> (escaped != [] ==> !IsWhitespace(escaped[|escaped| - 1])))
  {
    var pointer := ['/'] + escaped;
    assert pointer[1..] == escaped;
    ControlCons('/', escaped);
    TrimIsTrimmed(pointer);
    if escaped != [] {
      assert pointer[|pointer| - 1] == escaped[|escaped| - 1];
    }
  }

  /**
   * The validation accepts the pointer of a claim unchanged exactly if it is short enough and
   * the claim holds no control character and does not end in whitespace.
   */
  lemma {:induction false} AcceptedClaims(claim: string)
    ensures ValidatedClaimPointer(TopLevelClaimPointer(claim)) == Some(TopLevelClaimPointer(claim)) <==>
      && PointerBytes(claim) <= MAX_POINTER_BYTES && !HasControl(claim)
      && (claim != [] ==> !IsWhitespace(claim[|claim| - 1]))
  {
    PointerNamesClaim(claim);
    EscapeLength(claim);
    EscapeControl(claim);
    EscapeLast(claim);
    SlashInFront(Escape(claim));
  }

  // ---------------------------------------------------------------------------
  // What the validation accepts in general
  // ---------------------------------------------------------------------------

  predicate TokenOk(token: string) {
    EscapesValid(token) && '/' !in token
  }

  lemma {:induction false} PiecesValid(s: string)
    requires EscapesValid(s)
    ensures forall i :: 0 <= i < |Split(s, '/')| ==> TokenOk(Split(s, '/')[i])
    ensures StartsWithDigit(s) ==> StartsWithDigit(Split(s, '/')[0])
    decreases |s|
  {
    if s != [] {
      var rest := Split(s[1..], '/');
      EscapesValidCons(s[0], s[1..]);
      assert s == [s[0]] + s[1..];
      PiecesValid(s[1..]);
      if s[0] != '/' {
        assert TokenOk(rest[0]);
        EscapesValidCons(s[0], rest[0]);
      }
    }
  }

  /**
   * An accepted pointer is the trimmed configuration, follows the standard, and every token of
   * it is the escaped form of exactly one name.
   */
  lemma {:induction false} AcceptedPointers(configured: string)
    ensures var p := Trim(configured);
      ValidatedClaimPointer(configured) == if && p != [] && p[0] == '/' && EscapesValid(p)
                                              && Utf8Length(p) <= MAX_POINTER_BYTES && !HasControl(p)
                                           then Some(p) else None
    ensures ValidatedClaimPointer(configured).Some? ==>
      var tokens := ReferenceTokens(ValidatedClaimPointer(configured).value);
      forall i :: 0 <= i < |tokens| ==> Escape(Evaluate(tokens[i])) == tokens[i]
  {
    var p := Trim(configured);
    TildeCheckIsRule(p);
    if ValidatedClaimPointer(configured).Some? {
      PiecesValid(p);
      var tokens := ReferenceTokens(p);
      forall i | 0 <= i < |tokens| ensures Escape(Evaluate(tokens[i])) == tokens[i] {
        assert tokens[i] == Split(p, '/')[i + 1];
        TokensAreEscapes(tokens[i]);
      }
    }
  }
}
