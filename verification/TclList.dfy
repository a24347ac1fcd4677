// The Tcl list printer and parser of lib/folk.js.
module TclList {
  import opened Wrappers

  // ----- characters and the two regular expressions -------------------------------

  const BACKSLASH: char := '\\'
  const QUOTE: char := '\"'

  // The characters WORDSEP skips: space, \t, \n, \r, \f and \v.
  predicate IsSep(c: char) {
    c == ' ' || c == '\t' || c == '\n' || c == '\r' || c == '\U{000C}' || c == '\U{000B}'
  }

  // What `.` does not match in a JavaScript regular expression.
  predicate IsLineTerminator(c: char) {
    c == '\n' || c == '\r' || c == '\U{2028}' || c == '\U{2029}'
  }

  // The characters WORD takes without a backslash.
  predicate IsWordChar(c: char) {
    !IsSep(c) && c != '{' && c != '}' && c != BACKSLASH
  }

  predicate AtBoundary(rest: string) {
    rest == "" || IsSep(rest[0])
  }

  // How much of s the regular expression WORD takes; 0 when it does not match.
  function WordLength(s: string): (n: nat)
    ensures n <= |s|
  {
    if s != "" && IsWordChar(s[0]) then 1 + WordLength(s[1..])
    else if |s| >= 2 && s[0] == BACKSLASH && !IsLineTerminator(s[1]) then 2 + WordLength(s[2..])
    else 0
  }

  // How much of s the regular expression QUOTED takes: the least k such that nothing in
  // s[1..1+k] ends a line, s[1+k] is no backslash and s[2+k] is a double quote.
  function QuotedLength(s: string, k: nat): (n: Option<nat>)
    ensures n.Some? ==> 3 <= n.value <= |s|
    decreases |s| - k
  {
    if k + 2 >= |s| then None
    else if s[1 + k] != BACKSLASH && s[2 + k] == QUOTE then Some(k + 3)
    else if IsLineTerminator(s[1 + k]) then None
    else QuotedLength(s, k + 1)
  }

  function SkipSep(s: string): (r: string)
    ensures |r| <= |s|
    ensures r == "" || !IsSep(r[0])
  {
    if s != "" && IsSep(s[0]) then SkipSep(s[1..]) else s
  }

  // ----- braces -------------------------------------------------------------------

  // Characters one turn of eatBrace's loop takes: a backslash hides the one after it.
  function Width(c: char): nat {
    if c == BACKSLASH then 2 else 1
  }

  function Level(c: char, depth: nat): int {
    if c == '{' then depth + 1 else if c == '}' then depth - 1 else depth
  }

  // Characters from the start of s up to and including the brace that closes `depth` open
  // ones, a backslash hiding the character after it.
  function CloseAt(s: string, depth: nat): (n: Option<nat>)
    requires depth >= 1
    ensures n.Some? ==> 1 <= n.value <= |s|
  {
    if s == "" || |s| < Width(s[0]) then None
    else if Level(s[0], depth) == 0 then Some(1)
    else Later(CloseAt(s[Width(s[0])..], Level(s[0], depth)), Width(s[0]))
  }

  function Later(n: Option<nat>, k: nat): Option<nat> {
    match n case None => None case Some(m) => Some(m + k)
  }

  // The same search by index, as eatBrace's loop runs it.
  function CloseFrom(str: string, i: nat, bc: nat): (n: Option<nat>)
    requires bc >= 1
    decreases |str| - i
  {
    if i >= |str| || i + Width(str[i]) > |str| then None
    else if Level(str[i], bc) == 0 then Some(i + 1)
    else CloseFrom(str, i + Width(str[i]), Level(str[i], bc))
  }

  lemma {:induction false} CloseFromIsCloseAt(str: string, i: nat, bc: nat)
    requires i <= |str| && bc >= 1
    ensures CloseFrom(str, i, bc) == Later(CloseAt(str[i..], bc), i)
    decreases |str| - i
  {
    if i < |str| && i + Width(str[i]) <= |str| && Level(str[i], bc) != 0 {
      CloseFromIsCloseAt(str, i + Width(str[i]), Level(str[i], bc));
      assert str[i..][Width(str[i])..] == str[i + Width(str[i])..];
    }
  }

  // What eatBrace takes from str, and what it leaves; None where it throws.
  function BraceLength(str: string): (n: Option<nat>)
    ensures n.Some? ==> 2 <= n.value <= |str|
  {
    if str == "" then None else Later(CloseAt(str[1..], 1), 1)
  }

  // eatBrace's loop.
  method EatBrace(str: string) returns (r: Option<(string, string)>)
    ensures r.Some? <==> BraceLength(str).Some?
    ensures r.Some? ==> r.value.0 == str[..BraceLength(str).value]
    ensures r.Some? ==> r.value.1 == str[BraceLength(str).value..]
  {
    var bc: nat := 1;
    var i := 1;
    ghost var goal := CloseFrom(str, 1, 1);
    if str != "" {
      CloseFromIsCloseAt(str, 1, 1);
    }
    while i < |str|
      invariant 1 <= i && bc >= 1
      invariant goal == CloseFrom(str, i, bc)
    {
      if str[i] == BACKSLASH {
        i := i + 1;
      } else if str[i] == '{' {
        bc := bc + 1;
      } else if str[i] == '}' {
        bc := bc - 1;
      }
      if bc == 0 {
        return Some((str[..i + 1], str[i + 1..]));
      }
      i := i + 1;
    }
    return None;
  }

  // The brace depth after s, starting from `depth` and hiding what follows a backslash;
  // None when the depth falls to zero on the way or s ends inside an escape.
  function Nest(s: string, depth: nat): (r: Option<nat>)
    requires depth >= 1
    ensures r.Some? ==> r.value >= 1
  {
    if s == "" then Some(depth)
    else if |s| < Width(s[0]) || Level(s[0], depth) == 0 then None
    else Nest(s[Width(s[0])..], Level(s[0], depth))
  }

  // A string that may stand between braces: read with escapes, it closes what it opens and
  // nothing more.
  predicate Enclosable(w: string) {
    Nest(w, 1) == Some(1)
  }

  lemma {:induction false} NestThenClose(s: string, t: string, depth: nat)
    requires depth >= 1 && Nest(s, depth).Some?
    ensures CloseAt(s + t, depth) == Later(CloseAt(t, Nest(s, depth).value), |s|)
    decreases |s|
  {
    if s == "" {
      assert s + t == t;
    } else {
      var k := Width(s[0]);
      assert (s + t)[k..] == s[k..] + t;
      NestThenClose(s[k..], t, Level(s[0], depth));
    }
  }

  lemma {:induction false} NestConcat(s: string, t: string, depth: nat)
    requires depth >= 1 && Nest(s, depth).Some?
    ensures Nest(s + t, depth) == Nest(t, Nest(s, depth).value)
    decreases |s|
  {
    if s == "" {
      assert s + t == t;
    } else {
      var k := Width(s[0]);
      assert (s + t)[k..] == s[k..] + t;
      NestConcat(s[k..], t, Level(s[0], depth));
    }
  }

  lemma {:induction false} NestDeeper(s: string, depth: nat, extra: nat)
    requires depth >= 1 && Nest(s, depth).Some?
    ensures Nest(s, depth + extra) == Some(Nest(s, depth).value + extra)
    decreases |s|
  {
    if s != "" {
      NestDeeper(s[Width(s[0])..], Level(s[0], depth), extra);
    }
  }

  // The brace found is the first one that matches: what stands before it is itself balanced.
  lemma {:induction false} ClosedTextNests(s: string, depth: nat)
    requires depth >= 1 && CloseAt(s, depth).Some?
    ensures var n := CloseAt(s, depth).value; s[n - 1] == '}' && Nest(s[..n - 1], depth) == Some(1)
    decreases |s|
  {
    var n, k := CloseAt(s, depth).value, Width(s[0]);
    if Level(s[0], depth) != 0 {
      ClosedTextNests(s[k..], Level(s[0], depth));
      assert s[..n - 1][k..] == s[k..][..n - 1 - k];
    }
  }

  // eatBrace returns exactly the enclosed text, whatever follows, iff the text is enclosable.
  lemma {:induction false} BraceFinds(w: string, rest: string)
    ensures CloseAt(w + "}" + rest, 1) == Some(|w| + 1) <==> Enclosable(w)
  {
    var s := w + "}" + rest;
    if Enclosable(w) {
      NestThenClose(w, "}" + rest, 1);
      assert s == w + ("}" + rest);
    }
    if CloseAt(s, 1) == Some(|w| + 1) {
      ClosedTextNests(s, 1);
      assert s[..|w|] == w;
    }
  }

  function Count(s: string, c: char): (n: nat) {
    if s == "" then 0 else Count(s[..|s| - 1], c) + (if s[|s| - 1] == c then 1 else 0)
  }

  // What checkBrace tests, without regard to backslashes: no prefix closes more braces than
  // it opens, the braces balance, and there are no more ] than [.
  predicate Balanced(w: string) {
    && (forall k :: 0 <= k <= |w| ==> Count(w[..k], '}') <= Count(w[..k], '{'))
    && Count(w, '}') == Count(w, '{')
    && Count(w, ']') <= Count(w, '[')
  }

  // checkBrace's loop.
  method CheckBrace(str: string) returns (ok: bool)
    ensures ok == Balanced(str)
  {
    var curlies := 0;
    var brackets := 0;
    var i := 0;
    while i < |str|
      invariant 0 <= i <= |str|
      invariant curlies == Count(str[..i], '{') - Count(str[..i], '}')
      invariant brackets == Count(str[..i], '[') - Count(str[..i], ']')
      invariant forall k :: 0 <= k <= i ==> Count(str[..k], '}') <= Count(str[..k], '{')
    {
      assert str[..i + 1][..i] == str[..i];
      if str[i] == '{' {
        curlies := curlies + 1;
      } else if str[i] == '}' {
        curlies := curlies - 1;
      } else if str[i] == '[' {
        brackets := brackets + 1;
      } else if str[i] == ']' {
        brackets := brackets - 1;
      }
      i := i + 1;
      if curlies < 0 {
        return false;
      }
    }
    assert str[..i] == str;
    return curlies == 0 && brackets >= 0;
  }

  // Without backslashes, what checkBrace accepts may stand between braces.
  lemma {:induction false} BalancedEncloses(w: string, k: nat)
    requires BACKSLASH !in w && Balanced(w) && k <= |w|
    ensures Nest(w[..k], 1) == Some(1 + Count(w[..k], '{') - Count(w[..k], '}'))
  {
    if k > 0 {
      BalancedEncloses(w, k - 1);
      assert w[..k][..k - 1] == w[..k - 1];
      assert w[..k] == w[..k - 1] + [w[k - 1]];
      NestConcat(w[..k - 1], [w[k - 1]], 1);
      assert Count(w[..k], '}') <= Count(w[..k], '{');
    }
  }

  // ----- escapes ------------------------------------------------------------------

  // UNESCAPE_TABLE, whose '\a' is JavaScript for a plain a.
  function Named(c: char): char {
    if c == 'b' then '\U{0008}'
    else if c == 'n' then '\n'
    else if c == 'r' then '\r'
    else if c == 't' then '\t'
    else if c == 'f' then '\U{000C}'
    else if c == 'v' then '\U{000B}'
    else if c == '0' then '\0'
    else c
  }

  function Unescaped(s: string): (r: string)
    ensures |r| <= |s|
    ensures |r| == |s| ==> r == s
  {
    if |s| <= 1 then s
    else if s[0] == BACKSLASH then [Named(s[1])] + Unescaped(s[2..])
    else [s[0]] + Unescaped(s[1..])
  }

  lemma UnescapedStep(str: string, i: nat, output: string)
    requires i + 1 < |str|
    ensures str[i] == BACKSLASH ==>
              output + Unescaped(str[i..]) == output + [Named(str[i + 1])] + Unescaped(str[i + 2..])
    ensures str[i] != BACKSLASH ==> output + Unescaped(str[i..]) == output + [str[i]] + Unescaped(str[i + 1..])
  {
    assert str[i..][1..] == str[i + 1..];
    assert str[i..][2..] == str[i + 2..];
  }

  // unescape's loop.
  method Unescape(str: string) returns (output: string)
    ensures output == Unescaped(str)
  {
    output := "";
    var i := 0;
    while i < |str|
      invariant 0 <= i <= |str|
      invariant output + Unescaped(str[i..]) == Unescaped(str)
    {
      if i == |str| - 1 {
        output := output + [str[i]];
        assert str[i..] == [str[i]];
        break;
      }
      UnescapedStep(str, i, output);
      if str[i] == BACKSLASH {
        output := output + [Named(str[i + 1])];
        i := i + 1;
      } else {
        output := output + [str[i]];
      }
      i := i + 1;
    }
  }

  // ESCAPE_TABLE.
  function EscapeChar(c: char): string {
    if c == ' ' || c == '$' || c == QUOTE || c == '[' || c == ']' || c == '{' || c == '}' || c == ';'
       || c == BACKSLASH then [BACKSLASH, c]
    else if c == '\n' then [BACKSLASH, 'n']
    else if c == '\r' then [BACKSLASH, 'r']
    else if c == '\t' then [BACKSLASH, 't']
    else if c == '\U{000C}' then [BACKSLASH, 'f']
    else if c == '\U{000B}' then [BACKSLASH, 'v']
    else [c]
  }

  function Escape(w: string): string {
    if w == "" then "" else EscapeChar(w[0]) + Escape(w[1..])
  }

  lemma EscapedCharIsWord(c: char, s: string)
    ensures WordLength(EscapeChar(c) + s) == |EscapeChar(c)| + WordLength(s)
  {
    assert (EscapeChar(c) + s)[|EscapeChar(c)|..] == s;
  }

  // An escaped string is one WORD up to any boundary.
  lemma {:induction false} EscapeIsWord(w: string, rest: string)
    requires AtBoundary(rest)
    ensures WordLength(Escape(w) + rest) == |Escape(w)|
  {
    if w == "" {
      assert Escape(w) + rest == rest;
    } else {
      EscapeIsWord(w[1..], rest);
      EscapedCharIsWord(w[0], Escape(w[1..]) + rest);
      assert Escape(w) + rest == EscapeChar(w[0]) + (Escape(w[1..]) + rest);
    }
  }

  lemma UnescapeCons(c: char, s: string)
    ensures Unescaped(EscapeChar(c) + s) == [c] + Unescaped(s)
  {
    var e := EscapeChar(c);
    assert (e + s)[|e|..] == s;
    if |e| == 1 {
      assert s == "" ==> e + s == [c];
    } else {
      assert (e + s)[0] == e[0] && (e + s)[1] == e[1] && Named(e[1]) == c;
    }
  }

  // Unescaping undoes escaping.
  lemma {:induction false} UnescapeEscape(w: string)
    ensures Unescaped(Escape(w)) == w
  {
    if w != "" {
      UnescapeEscape(w[1..]);
      UnescapeCons(w[0], Escape(w[1..]));
      assert w == [w[0]] + w[1..];
    }
  }

  lemma EscapedCharNests(c: char, s: string)
    ensures Nest(EscapeChar(c) + s, 1) == Nest(s, 1)
  {
    assert (EscapeChar(c) + s)[|EscapeChar(c)|..] == s;
  }

  lemma {:induction false} EscapeEncloses(w: string)
    ensures Enclosable(Escape(w))
  {
    if w != "" {
      EscapeEncloses(w[1..]);
      EscapedCharNests(w[0], Escape(w[1..]));
    }
  }

  // ----- reading tokens -----------------------------------------------------------

  // What nextToken comes to: a token and the text after it, the end, or an exception.
  datatype Next = Token(word: string, rest: string) | End | Throws(message: string)

  // One turn of nextToken's loop: how many characters it takes and what it adds to the
  // token, or the exception it throws.
  datatype Piece = Piece(taken: nat, text: string) | Refused(message: string)

  function PieceOf(s: string, started: bool): (p: Piece)
    requires !AtBoundary(s)
    ensures p.Piece? ==> 1 <= p.taken <= |s| && |p.text| <= p.taken
    ensures p.Piece? && |p.text| == p.taken ==> p.text == s[..p.taken]
    ensures p.Piece? && s[0] == QUOTE ==> |p.text| < p.taken
    ensures s[0] == '}' ==> p.Refused?
  {
    if s[0] == '{' then
      match BraceLength(s)
      case None => Refused("missing closing \"}\"")
      case Some(n) => Piece(n, if started then s[..n] else s[1..n - 1])
    else if s[0] == QUOTE then
      match QuotedLength(s, 0)
      case None => Refused("unmatched \"")
      case Some(n) => Piece(n, Unescaped(s[1..n - 1]))
    else
      var n := WordLength(s);
      if n == 0 then Refused("invalid escape or closing brace") else Piece(n, Unescaped(s[..n]))
  }

  // nextToken's loop, with what it has read so far.
  function ReadToken(s: string, token: string): (r: Next)
    ensures r.Token? ==> |r.rest| <= |s| && AtBoundary(r.rest)
    ensures r.Token? ==> |r.word| - |token| <= |s| - |r.rest|
    ensures !r.End?
    decreases |s|
  {
    if AtBoundary(s) then Token(token, s)
    else match PieceOf(s, token != "")
      case Refused(m) => Throws(m)
      case Piece(n, text) => ReadToken(s[n..], token + text)
  }

  lemma Regroup(token: string, s: string, i: nat, j: nat)
    requires i <= j <= |s|
    ensures token + s[..i] + s[i..][..j - i] == token + s[..j]
  {
  }

  // A token as long as the text it was read from is that text.
  lemma {:induction false} ReadLiterally(s: string, token: string)
    requires var r := ReadToken(s, token); r.Token? && |r.word| - |token| == |s| - |r.rest|
    ensures var r := ReadToken(s, token); r.word == token + s[..|s| - |r.rest|]
    decreases |s|
  {
    if !AtBoundary(s) {
      var p := PieceOf(s, token != "");
      var r := ReadToken(s, token);
      assert r == ReadToken(s[p.taken..], token + p.text);
      ReadLiterally(s[p.taken..], token + p.text);
      Regroup(token, s, p.taken, |s| - |r.rest|);
    }
  }

  function NextTokenOf(s: string): (r: Next)
    ensures r.Token? ==> |r.rest| < |s| && AtBoundary(r.rest)
  {
    var t := SkipSep(s);
    if t == "" then End else ReadOnce(t); ReadToken(t, "")
  }

  // The first turn of the loop takes at least one character.
  lemma ReadOnce(s: string)
    requires !AtBoundary(s)
    ensures var r := ReadToken(s, ""); r.Token? ==> |r.rest| < |s|
  {
  }

  ghost predicate Suffix(t: string, s: string) {
    |t| <= |s| && t == s[|s| - |t|..]
  }

  lemma SuffixLater(t: string, s: string, k: nat)
    requires k <= |s| && Suffix(t, s[k..])
    ensures Suffix(t, s)
  {
  }

  lemma {:induction false} SkipLeavesSuffix(s: string)
    ensures Suffix(SkipSep(s), s)
  {
    if s != "" && IsSep(s[0]) {
      SkipLeavesSuffix(s[1..]);
      SuffixLater(SkipSep(s), s, 1);
    }
  }

  lemma {:induction false} SkipsAll(s: string)
    ensures SkipSep(s) == "" <==> forall i :: 0 <= i < |s| ==> IsSep(s[i])
  {
    if s != "" && IsSep(s[0]) {
      SkipsAll(s[1..]);
      if forall i :: 0 <= i < |s[1..]| ==> IsSep(s[1..][i]) {
        forall i | 0 <= i < |s| ensures IsSep(s[i]) {
          assert i > 0 ==> s[i] == s[1..][i - 1];
        }
      }
    }
  }

  lemma {:induction false} ReadLeavesSuffix(s: string, token: string)
    requires ReadToken(s, token).Token?
    ensures Suffix(ReadToken(s, token).rest, s)
    decreases |s|
  {
    if !AtBoundary(s) {
      var p := PieceOf(s, token != "");
      var r := ReadToken(s[p.taken..], token + p.text);
      assert r == ReadToken(s, token);
      ReadLeavesSuffix(s[p.taken..], token + p.text);
      SuffixLater(r.rest, s, p.taken);
    }
  }

  // nextToken always makes progress: a token leaves a proper suffix of its input that starts
  // at a separator, and the end is reported exactly when only separators are left.
  lemma NextTokenConsumes(s: string)
    ensures var r := NextTokenOf(s); r.Token? ==> |r.rest| < |s| && Suffix(r.rest, s) && AtBoundary(r.rest)
    ensures NextTokenOf(s).End? <==> forall i :: 0 <= i < |s| ==> IsSep(s[i])
  {
    var t := SkipSep(s);
    SkipLeavesSuffix(s);
    SkipsAll(s);
    if t != "" && ReadToken(t, "").Token? {
      ReadLeavesSuffix(t, "");
      SuffixLater(ReadToken(t, "").rest, s, |s| - |t|);
    }
  }

  // The switch in nextToken's loop.
  method ReadPiece(str: string, started: bool) returns (p: Piece)
    requires !AtBoundary(str)
    ensures p == PieceOf(str, started)
  {
    if str[0] == '{' {
      var eaten := EatBrace(str);
      if eaten.None? {
        return Refused("missing closing \"}\"");
      }
      var word := eaten.value.0;
      return Piece(|word|, if started then word else word[1..|word| - 1]);
    } else if str[0] == QUOTE {
      var n := QuotedLength(str, 0);
      if n.None? {
        return Refused("unmatched \"");
      }
      var plain := Unescape(str[1..n.value - 1]);
      return Piece(n.value, plain);
    } else {
      var n := WordLength(str);
      if n == 0 {
        return Refused("invalid escape or closing brace");
      }
      var plain := Unescape(str[..n]);
      return Piece(n, plain);
    }
  }

  // nextToken.
  method NextToken(input: string) returns (r: Next)
    ensures r == NextTokenOf(input)
  {
    var str := SkipSep(input);
    if str == "" {
      return End;
    }
    var token := "";
    ghost var goal := ReadToken(str, "");
    while !AtBoundary(str)
      invariant ReadToken(str, token) == goal
      decreases |str|
    {
      var p := ReadPiece(str, token != "");
      if p.Refused? {
        return Throws(p.message);
      }
      token, str := token + p.text, str[p.taken..];
    }
    return Token(token, str);
  }

  datatype Loaded = Words(words: seq<string>) | Failed(message: string)

  function ListOf(s: string): (r: Loaded)
    decreases |s|
  {
    match NextTokenOf(s)
    case End => Words([])
    case Throws(m) => Failed(m)
    case Token(w, rest) =>
      Prepend([w], ListOf(rest))
  }

  function Prepend(words: seq<string>, r: Loaded): Loaded {
    if r.Failed? then r else Words(words + r.words)
  }

  lemma PrependWord(words: seq<string>, w: string, r: Loaded)
    ensures Prepend(words, Prepend([w], r)) == Prepend(words + [w], r)
  {
    if r.Words? {
      assert words + ([w] + r.words) == words + [w] + r.words;
    }
  }

  lemma ListStep(words: seq<string>, s: string)
    requires NextTokenOf(s).Token?
    ensures Prepend(words, ListOf(s)) == Prepend(words + [NextTokenOf(s).word], ListOf(NextTokenOf(s).rest))
  {
    PrependWord(words, NextTokenOf(s).word, ListOf(NextTokenOf(s).rest));
  }

  // loadList.
  method LoadList(input: string) returns (r: Loaded)
    ensures r == ListOf(input)
  {
    var tokens: seq<string> := [];
    var str := input;
    var next := NextToken(str);
    ghost var goal := ListOf(input);
    while next.Token?
      invariant next == NextTokenOf(str)
      invariant goal == Prepend(tokens, ListOf(str))
      decreases |str|
    {
      ListStep(tokens, str);
      tokens := tokens + [next.word];
      str := next.rest;
      next := NextToken(str);
    }
    return if next.Throws? then Failed(next.message) else Words(tokens);
  }

  // ----- printing -----------------------------------------------------------------

  // The test for the raw form.
  predicate PrintsRaw(w: string) {
    w != "" && w[0] != '#' && WordLength(w) == |w|
  }

  predicate HasEscapedNewline(w: string) {
    exists i :: 0 <= i < |w| - 1 && w[i] == BACKSLASH && w[i + 1] == '\n'
  }

  predicate PrintsBraced(w: string) {
    w != "" && !PrintsRaw(w) && Balanced(w) && !HasEscapedNewline(w)
  }

  function DumpString(w: string): string {
    if w == "" then "{}"
    else if PrintsRaw(w) then w
    else if PrintsBraced(w) then "{" + w + "}"
    else Escape(w)
  }

  // Exactly the strings that come back when they are printed and read. The two failing
  // families: a raw word with a backslash or a leading double quote, and a braced string
  // whose braces balance only when backslashes are ignored.
  predicate Survives(w: string) {
    && (PrintsRaw(w) ==> BACKSLASH !in w && w[0] != QUOTE)
    && (PrintsBraced(w) ==> Enclosable(w))
  }

  // Strings with no backslash that do not begin with a double quote all survive.
  lemma {:induction false} PlainSurvives(w: string)
    requires BACKSLASH !in w && (w == "" || w[0] != QUOTE)
    ensures Survives(w)
  {
    if PrintsBraced(w) {
      BalancedEncloses(w, |w|);
      assert w[..|w|] == w;
    }
  }

  // A whole word stays one word in front of a boundary.
  lemma {:induction false} WordStaysWord(w: string, rest: string)
    requires WordLength(w) == |w| && AtBoundary(rest)
    ensures WordLength(w + rest) == |w|
    decreases |w|
  {
    if w == "" {
      assert w + rest == rest;
    } else {
      var k := if IsWordChar(w[0]) then 1 else 2;
      assert (w + rest)[k..] == w[k..] + rest;
      WordStaysWord(w[k..], rest);
    }
  }

  // The braces of a whole word are all escaped.
  lemma {:induction false} WordEncloses(w: string)
    requires WordLength(w) == |w|
    ensures Enclosable(w)
  {
    if w != "" {
      WordEncloses(w[if IsWordChar(w[0]) then 1 else 2..]);
    }
  }

  lemma {:induction false} WordUnescapes(w: string)
    requires WordLength(w) == |w|
    ensures Unescaped(w) == w <==> BACKSLASH !in w
  {
    if w != "" {
      if IsWordChar(w[0]) {
        WordUnescapes(w[1..]);
        assert w == [w[0]] + w[1..];
      } else {
        assert |Unescaped(w)| < |w|;
      }
    }
  }

  // A printed string, followed by a boundary, reads back as itself iff it is one of those
  // that survive.
  lemma {:induction false} StringRoundTrip(w: string, rest: string)
    requires AtBoundary(rest)
    ensures NextTokenOf(DumpString(w) + rest) == Token(w, rest) <==> Survives(w)
  {
    if w == "" {
      BracedRoundTrip("", rest);
      assert "{" + "" + "}" == "{}";
    } else if PrintsRaw(w) {
      RawRoundTrip(w, rest);
    } else if PrintsBraced(w) {
      BracedRoundTrip(w, rest);
    } else {
      EscapedRoundTrip(w, rest);
    }
  }

  // One piece up to a boundary is the whole token.
  lemma OnePiece(s: string, rest: string, text: string)
    requires !AtBoundary(s) && AtBoundary(rest)
    requires |rest| < |s| && PieceOf(s, false) == Piece(|s| - |rest|, text)
    requires s[|s| - |rest|..] == rest
    ensures NextTokenOf(s) == Token(text, rest)
  {
    assert "" + text == text;
    assert ReadToken(s, "") == ReadToken(rest, "" + text);
  }

  lemma BracePiece(w: string, rest: string)
    requires Enclosable(w)
    ensures PieceOf("{" + w + "}" + rest, false) == Piece(|w| + 2, w)
  {
    var s := "{" + w + "}" + rest;
    BraceFinds(w, rest);
    assert s[1..] == w + "}" + rest;
    assert s[1..|w| + 1] == w;
  }

  lemma {:induction false} RawRoundTrip(w: string, rest: string)
    requires PrintsRaw(w) && AtBoundary(rest)
    ensures NextTokenOf(w + rest) == Token(w, rest) <==> (BACKSLASH !in w && w[0] != QUOTE)
  {
    var s := w + rest;
    if w[0] == QUOTE {
      QuoteShortens(s);
    } else {
      WordStaysWord(w, rest);
      WordUnescapes(w);
      assert s[|w|..] == rest && s[..|w|] == w;
      OnePiece(s, rest, Unescaped(w));
    }
  }

  // A token that starts with a quoted piece is shorter than the text it was read from.
  lemma QuoteShortens(s: string)
    requires s != "" && s[0] == QUOTE
    ensures var r := NextTokenOf(s); r.Token? ==> |r.word| < |s| - |r.rest|
  {
    var p := PieceOf(s, false);
    if p.Piece? {
      assert ReadToken(s, "") == ReadToken(s[p.taken..], "" + p.text);
    }
  }

  lemma {:induction false} BracedRoundTrip(w: string, rest: string)
    requires AtBoundary(rest)
    ensures NextTokenOf("{" + w + "}" + rest) == Token(w, rest) <==> Enclosable(w)
  {
    var s := "{" + w + "}" + rest;
    assert s[1..] == w + "}" + rest;
    if Enclosable(w) {
      BracePiece(w, rest);
      assert s[|w| + 2..] == rest;
      OnePiece(s, rest, w);
    } else if CloseAt(s[1..], 1).Some? {
      ClosedElsewhere(w, rest, s, CloseAt(s[1..], 1).value);
    }
  }

  lemma BraceOpens(s: string, n: nat)
    requires s != "" && s[0] == '{' && CloseAt(s[1..], 1) == Some(n)
    ensures NextTokenOf(s) == ReadToken(s[n + 1..], s[1..n])
  {
    assert SkipSep(s) == s;
    assert "" + s[1..n] == s[1..n];
    assert PieceOf(s, false) == Piece(n + 1, s[1..n]);
  }

  lemma {:induction false} ClosedElsewhere(w: string, rest: string, s: string, n: nat)
    requires !Enclosable(w) && s == "{" + w + "}" + rest && s[1..] == w + "}" + rest
    requires CloseAt(s[1..], 1) == Some(n)
    ensures NextTokenOf(s) != Token(w, rest)
  {
    BraceFinds(w, rest);
    if n <= |w| {
      BraceOpens(s, n);
      EarlyCloseFails(w, rest, n);
      Halves(w, rest, n);
    } else {
      LateCloseFails(w, rest, s, n);
    }
  }

  lemma Halves(w: string, rest: string, n: nat)
    requires 1 <= n <= |w|
    ensures var s := "{" + w + "}" + rest; s[1..n] == w[..n - 1] && s[n + 1..] == w[n..] + "}" + rest
  {
  }

  // When the brace is closed beyond its own, less than the rest is left.
  lemma LateCloseFails(w: string, rest: string, s: string, n: nat)
    requires |s| == |w| + |rest| + 2 && s[0] == '{' && n > |w| + 1
    requires CloseAt(s[1..], 1) == Some(n)
    ensures NextTokenOf(s) != Token(w, rest)
  {
    BraceOpens(s, n);
  }

  // When the enclosed text closes its own brace early, the token that results is not w: to
  // be as long as w it would have to be read literally, and then a bare } comes next.
  lemma {:induction false} EarlyCloseFails(w: string, rest: string, n: nat)
    requires 1 <= n <= |w| && CloseAt(w + "}" + rest, 1) == Some(n)
    ensures ReadToken(w[n..] + "}" + rest, w[..n - 1]) != Token(w, rest)
  {
    ClosedTextNests(w + "}" + rest, 1);
    var tail := w[n..] + "}";
    assert tail[0] != '}' ==> w[n - 1] != tail[0];
    if tail[0] != '}' && ReadToken(tail + rest, w[..n - 1]) == Token(w, rest) {
      ReadLiterally(tail + rest, w[..n - 1]);
      LiteralTail(w, n - 1, tail, rest);
    }
  }

  lemma LiteralTail(w: string, i: int, tail: string, rest: string)
    requires 0 <= i < |w| && tail != "" && w == w[..i] + (tail + rest)[..|tail|]
    ensures w[i] == tail[0]
  {
    assert w[i] == (w[..i] + (tail + rest)[..|tail|])[i];
  }

  lemma {:induction false} EscapedRoundTrip(w: string, rest: string)
    requires w != "" && AtBoundary(rest)
    ensures NextTokenOf(Escape(w) + rest) == Token(w, rest)
  {
    EscapeIsWord(w, rest);
    UnescapeEscape(w);
    var e := Escape(w);
    assert e[0] == EscapeChar(w[0])[0];
    assert (e + rest)[|e|..] == rest && (e + rest)[..|e|] == e;
    OnePiece(e + rest, rest, w);
  }

  // ----- quoted strings -----------------------------------------------------------

  // A text that stands between double quotes: it is not empty, its last character is no backslash, nothing
  // before that ends a line, and a double quote in it, but for the first character, follows a backslash.
  predicate Quotable(w: string) {
    && w != "" && w[|w| - 1] != BACKSLASH
    && (forall j :: 0 <= j < |w| - 1 ==> !IsLineTerminator(w[j]))
    && (forall j :: 1 <= j < |w| && w[j] == QUOTE ==> w[j - 1] == BACKSLASH)
  }

  // The search for the closing quote finds the first that can close.
  lemma {:induction false} QuotedAt(s: string, k: nat, n: nat)
    requires k + 2 <= n < |s| && s[n] == QUOTE && s[n - 1] != BACKSLASH
    ensures QuotedLength(s, k) == Some(n + 1) <==>
            && (forall j :: k + 1 <= j < n - 1 ==> !IsLineTerminator(s[j]))
            && (forall j :: k + 2 <= j < n && s[j] == QUOTE ==> s[j - 1] == BACKSLASH)
    decreases n - k
  {
    if k + 2 < n {
      QuotedAt(s, k + 1, n);
      if s[1 + k] != BACKSLASH && s[2 + k] == QUOTE {
        assert QuotedLength(s, k) == Some(k + 3);
      }
    }
  }

  // A double-quoted text, followed by a boundary, reads as the text with its escapes undone; exactly the quotable
  // ones are taken as a whole.
  lemma {:induction false} QuotedReads(w: string, rest: string)
    requires AtBoundary(rest) && Quotable(w)
    ensures NextTokenOf([QUOTE] + w + [QUOTE] + rest) == Token(Unescaped(w), rest)
  {
    var s := [QUOTE] + w + [QUOTE] + rest;
    QuotedTaken(w, rest);
    assert s[1..|w| + 1] == w && s[|w| + 2..] == rest;
    OnePiece(s, rest, Unescaped(w));
  }

  lemma {:induction false} QuotedTaken(w: string, rest: string)
    requires w != "" && w[|w| - 1] != BACKSLASH
    ensures QuotedLength([QUOTE] + w + [QUOTE] + rest, 0) == Some(|w| + 2) <==> Quotable(w)
  {
    var s := [QUOTE] + w + [QUOTE] + rest;
    var n := |w| + 1;
    assert forall j :: 0 <= j < |w| ==> s[j + 1] == w[j];
    assert s[n] == QUOTE && s[n - 1] == w[|w| - 1];
    QuotedAt(s, 0, n);
    if QuotedLength(s, 0) == Some(n + 1) {
      forall j | 0 <= j < |w| - 1 ensures !IsLineTerminator(w[j]) {
        assert !IsLineTerminator(s[j + 1]);
      }
      forall j | 1 <= j < |w| && w[j] == QUOTE ensures w[j - 1] == BACKSLASH {
        assert s[j + 1] == QUOTE;
      }
    }
    if Quotable(w) {
      forall j | 1 <= j < n - 1 ensures !IsLineTerminator(s[j]) {
        assert s[j] == w[j - 1];
      }
      forall j | 2 <= j < n && s[j] == QUOTE ensures s[j - 1] == BACKSLASH {
        assert s[j] == w[j - 1] && s[j - 1] == w[j - 2];
      }
    }
  }

  // Without a backslash and a double quote in it, and on one line, it reads as itself.
  lemma {:induction false} PlainQuotedReads(w: string, rest: string)
    requires AtBoundary(rest) && w != "" && BACKSLASH !in w && QUOTE !in w
    requires forall j :: 0 <= j < |w| ==> !IsLineTerminator(w[j])
    ensures NextTokenOf([QUOTE] + w + [QUOTE] + rest) == Token(w, rest)
  {
    QuotedReads(w, rest);
    PlainUnescapes(w);
  }

  lemma {:induction false} PlainUnescapes(w: string)
    requires BACKSLASH !in w
    ensures Unescaped(w) == w
  {
    if |w| > 1 {
      PlainUnescapes(w[1..]);
      assert w == [w[0]] + w[1..];
    }
  }

  // The control characters that escapes stand for, by their codes; any other character stands for itself.
  lemma EscapeCodes(c: char)
    ensures Unescaped([BACKSLASH, c]) ==
            [if c == 'b' then 8 as char else if c == 't' then 9 as char else if c == 'n' then 10 as char
             else if c == 'v' then 11 as char else if c == 'f' then 12 as char else if c == 'r' then 13 as char
             else if c == '0' then 0 as char else c]
  {
    assert [BACKSLASH, c][2..] == [];
  }

  // ----- nested lists -------------------------------------------------------------

  datatype Value = Str(text: string) | List(items: seq<Value>)

  datatype Shape = Leaf | Node(children: seq<Shape>)

  function ShapeOf(v: Value): Shape {
    match v
    case Str(_) => Leaf
    case List(items) => Node(ShapesOf(items))
  }

  function ShapesOf(vs: seq<Value>): (r: seq<Shape>)
    ensures |r| == |vs|
  {
    if vs == [] then [] else [ShapeOf(vs[0])] + ShapesOf(vs[1..])
  }

  function Dump(v: Value): string {
    match v
    case Str(w) => DumpString(w)
    case List(items) => "{" + DumpItems(items) + "}"
  }

  // items.map(dump).join(' ').
  function DumpItems(vs: seq<Value>): string {
    if vs == [] then "" else if |vs| == 1 then Dump(vs[0]) else Dump(vs[0]) + " " + DumpItems(vs[1..])
  }

  function DumpRaw(v: Value): string {
    match v
    case Str(w) => DumpString(w)
    case List(items) => DumpItems(items)
  }

  // What the parser yields as the token of one element: strings are done, lists are still
  // text to be loaded in their turn.
  function Inner(v: Value): string {
    match v
    case Str(w) => w
    case List(items) => DumpItems(items)
  }

  function Inners(vs: seq<Value>): (r: seq<string>) {
    if vs == [] then [] else [Inner(vs[0])] + Inners(vs[1..])
  }

  // Loading with loadList, one level of the shape at a time.
  function LoadToken(shape: Shape, token: string): (r: Option<Value>)
    decreases shape
  {
    match shape
    case Leaf => Some(Str(token))
    case Node(children) =>
      match ListOf(token)
      case Failed(_) => None
      case Words(ws) =>
        match LoadTokens(children, ws)
        case None => None
        case Some(vs) => Some(List(vs))
  }

  function LoadTokens(shapes: seq<Shape>, words: seq<string>): (r: Option<seq<Value>>)
    decreases shapes
  {
    if |shapes| != |words| then None
    else if shapes == [] then Some([])
    else match (LoadToken(shapes[0], words[0]), LoadTokens(shapes[1..], words[1..]))
      case (Some(v), Some(vs)) => Some([v] + vs)
      case _ => None
  }

  function Load(shape: Shape, text: string): (r: Option<Value>) {
    if shape.Node? then LoadToken(shape, text)
    else match NextTokenOf(text)
      case Token(w, "") => Some(Str(w))
      case _ => None
  }

  ghost predicate AllSurvive(v: Value) {
    match v
    case Str(w) => Survives(w)
    case List(items) => forall i :: 0 <= i < |items| ==> AllSurvive(items[i])
  }

  lemma {:induction false} DumpStringEncloses(w: string)
    requires Survives(w)
    ensures Enclosable(DumpString(w)) && DumpString(w) != ""
  {
    if w == "" {
      BracesEnclose("");
    } else if PrintsRaw(w) {
      WordEncloses(w);
    } else if PrintsBraced(w) {
      BracesEnclose(w);
    } else {
      EscapeEncloses(w);
    }
  }

  lemma {:induction false} BracesEnclose(w: string)
    requires Enclosable(w)
    ensures Enclosable("{" + w + "}")
  {
    var s := "{" + w + "}";
    assert s[1..] == w + "}";
    NestDeeper(w, 1, 1);
    NestConcat(w, "}", 2);
    assert Nest("}", 2) == Some(1);
  }

  lemma {:induction false} DumpEncloses(v: Value)
    requires AllSurvive(v)
    ensures Enclosable(Dump(v))
    decreases v
  {
    match v
    case Str(w) => DumpStringEncloses(w);
    case List(items) =>
      ItemsEnclose(items);
      BracesEnclose(DumpItems(items));
  }

  lemma {:induction false} ItemsEnclose(vs: seq<Value>)
    requires forall i :: 0 <= i < |vs| ==> AllSurvive(vs[i])
    ensures Enclosable(DumpItems(vs))
    decreases vs
  {
    if vs != [] {
      DumpEncloses(vs[0]);
      ItemsEnclose(vs[1..]);
      if |vs| > 1 {
        NestConcat(Dump(vs[0]), " ", 1);
        NestConcat(Dump(vs[0]) + " ", DumpItems(vs[1..]), 1);
      }
    }
  }

  // One printed element, followed by a boundary, is one token.
  lemma {:induction false} ElementReads(v: Value, rest: string)
    requires AllSurvive(v) && AtBoundary(rest)
    ensures NextTokenOf(Dump(v) + rest) == Token(Inner(v), rest)
  {
    match v
    case Str(w) => StringRoundTrip(w, rest);
    case List(items) =>
      ItemsEnclose(items);
      BracedRoundTrip(DumpItems(items), rest);
  }

  lemma {:induction false} ItemsRead(vs: seq<Value>)
    requires forall i :: 0 <= i < |vs| ==> AllSurvive(vs[i])
    ensures ListOf(DumpItems(vs)) == Words(Inners(vs))
  {
    if |vs| == 1 {
      ElementReads(vs[0], "");
      assert Dump(vs[0]) + "" == Dump(vs[0]);
      assert ListOf("") == Words([]);
      assert Inners(vs) == [Inner(vs[0])];
    } else if |vs| > 1 {
      var more := DumpItems(vs[1..]);
      ElementReads(vs[0], " " + more);
      assert DumpItems(vs) == Dump(vs[0]) + (" " + more);
      ItemsRead(vs[1..]);
      SpaceSkipped(more);
    }
  }

  lemma SpaceSkipped(s: string)
    ensures ListOf(" " + s) == ListOf(s)
  {
    assert (" " + s)[1..] == s;
    assert SkipSep(" " + s) == SkipSep(s);
  }

  // Printing and then loading by shape gives back every nested list whose strings survive.
  lemma {:induction false} LoadsBack(v: Value)
    requires AllSurvive(v)
    ensures LoadToken(ShapeOf(v), Inner(v)) == Some(v)
    decreases v
  {
    if v.List? {
      ItemsRead(v.items);
      ItemsLoadBack(v.items);
    }
  }

  lemma {:induction false} ItemsLoadBack(vs: seq<Value>)
    requires forall i :: 0 <= i < |vs| ==> AllSurvive(vs[i])
    ensures |Inners(vs)| == |vs|
    ensures LoadTokens(ShapesOf(vs), Inners(vs)) == Some(vs)
    decreases vs
  {
    if vs != [] {
      LoadsBack(vs[0]);
      ItemsLoadBack(vs[1..]);
      LoadOneMore(ShapeOf(vs[0]), ShapesOf(vs[1..]), Inner(vs[0]), Inners(vs[1..]));
      assert vs == [vs[0]] + vs[1..];
    }
  }

  lemma LoadOneMore(shape: Shape, shapes: seq<Shape>, word: string, words: seq<string>)
    requires LoadToken(shape, word).Some? && LoadTokens(shapes, words).Some?
    ensures LoadTokens([shape] + shapes, [word] + words) ==
            Some([LoadToken(shape, word).value] + LoadTokens(shapes, words).value)
  {
    assert ([shape] + shapes)[1..] == shapes && ([word] + words)[1..] == words;
  }

  lemma {:induction false} RoundTrip(v: Value)
    requires AllSurvive(v)
    ensures Load(ShapeOf(v), DumpRaw(v)) == Some(v)
  {
    LoadsBack(v);
    if v.Str? {
      StringRoundTrip(v.text, "");
      assert DumpString(v.text) + "" == DumpString(v.text);
    }
  }

  // The same for a list printed by dump: it is one token, and its text loads back.
  lemma {:induction false} DumpRoundTrip(v: Value)
    requires AllSurvive(v)
    ensures NextTokenOf(Dump(v)) == Token(Inner(v), "") && LoadToken(ShapeOf(v), Inner(v)) == Some(v)
  {
    ElementReads(v, "");
    assert Dump(v) + "" == Dump(v);
    LoadsBack(v);
  }

  // Every string of v is one of ws.
  ghost predicate MadeOf(v: Value, ws: iset<string>) {
    match v
    case Str(w) => w in ws
    case List(items) => forall i :: 0 <= i < |items| ==> MadeOf(items[i], ws)
  }

  lemma {:induction false} MadeOfSurvivors(v: Value, ws: iset<string>)
    requires MadeOf(v, ws) && forall w :: w in ws ==> Survives(w)
    ensures AllSurvive(v)
    decreases v
  {
    if v.List? {
      forall i | 0 <= i < |v.items| ensures AllSurvive(v.items[i]) {
        MadeOfSurvivors(v.items[i], ws);
      }
    }
  }

  // The strings that may be used freely: all values made of them load back, however nested, exactly if
  // each of them survives.
  lemma {:induction false} RoundTripIff(ws: iset<string>)
    ensures (forall v :: MadeOf(v, ws) ==> Load(ShapeOf(v), DumpRaw(v)) == Some(v))
       <==> forall w :: w in ws ==> Survives(w)
  {
    if forall w :: w in ws ==> Survives(w) {
      forall v | MadeOf(v, ws) ensures Load(ShapeOf(v), DumpRaw(v)) == Some(v) {
        MadeOfSurvivors(v, ws);
        RoundTrip(v);
      }
    }
    if w :| w in ws && !Survives(w) {
      assert MadeOf(Str(w), ws);
      StringRoundTrip(w, "");
      assert DumpString(w) + "" == DumpString(w);
      assert Load(ShapeOf(Str(w)), DumpRaw(Str(w))) != Some(Str(w));
    }
  }

  // Strings without a backslash and without a leading double quote.
  ghost predicate PlainLeaves(v: Value) {
    match v
    case Str(w) => BACKSLASH !in w && (w == "" || w[0] != QUOTE)
    case List(items) => forall i :: 0 <= i < |items| ==> PlainLeaves(items[i])
  }

  lemma {:induction false} PlainRoundTrip(v: Value)
    requires PlainLeaves(v)
    ensures Load(ShapeOf(v), DumpRaw(v)) == Some(v)
  {
    PlainAllSurvive(v);
    RoundTrip(v);
  }

  lemma {:induction false} PlainAllSurvive(v: Value)
    requires PlainLeaves(v)
    ensures AllSurvive(v)
    decreases v
  {
    match v
    case Str(w) => PlainSurvives(w);
    case List(items) =>
      forall i | 0 <= i < |items| ensures AllSurvive(items[i]) {
        PlainAllSurvive(items[i]);
      }
  }

  // Neither restriction can be dropped: a\b loses its backslash, a word that begins with a double quote
  // is read as a quoted string, and \{} in braces is closed too soon.
  lemma {:induction false} NotAllSurvive()
    ensures NextTokenOf(DumpString(['a', BACKSLASH, 'b'])) != Token(['a', BACKSLASH, 'b'], "")
    ensures NextTokenOf(DumpString([QUOTE, 'a'])) != Token([QUOTE, 'a'], "")
    ensures NextTokenOf(DumpString([BACKSLASH, '{', '}'])) != Token([BACKSLASH, '{', '}'], "")
  {
    assert WordLength(['b']) == 1;
    assert ['a', BACKSLASH, 'b'][1..][2..] == [];
    assert WordLength(['a', BACKSLASH, 'b']) == 3;
    StringRoundTrip(['a', BACKSLASH, 'b'], "");
    assert [QUOTE, 'a'][1..] == ['a'];
    assert WordLength(['a']) == 1;
    assert WordLength([QUOTE, 'a']) == 2;
    StringRoundTrip([QUOTE, 'a'], "");
    ClosedTooSoon();
    StringRoundTrip([BACKSLASH, '{', '}'], "");
    assert DumpString(['a', BACKSLASH, 'b']) + "" == DumpString(['a', BACKSLASH, 'b']);
    assert DumpString([QUOTE, 'a']) + "" == DumpString([QUOTE, 'a']);
    assert DumpString([BACKSLASH, '{', '}']) + "" == DumpString([BACKSLASH, '{', '}']);
  }

  lemma {:induction false} ClosedTooSoon()
    ensures PrintsBraced([BACKSLASH, '{', '}']) && !Enclosable([BACKSLASH, '{', '}'])
  {
    var w := [BACKSLASH, '{', '}'];
    assert w[2..] == ['}'];
    assert WordLength(w[2..]) == 0;
    assert w[..1] == [BACKSLASH] && w[..2] == [BACKSLASH, '{'] && w[..3] == w;
    CountSmall(w, '{');
    CountSmall(w, '}');
    CountSmall(w, '[');
    CountSmall(w, ']');
    assert Nest(['}'], 1) == None;
  }

  // The counts of c in the prefixes of a string of three.
  lemma CountSmall(w: string, c: char)
    requires |w| == 3
    ensures Count(w[..0], c) == 0
    ensures Count(w[..1], c) == if w[0] == c then 1 else 0
    ensures Count(w[..2], c) == Count(w[..1], c) + if w[1] == c then 1 else 0
    ensures Count(w[..3], c) == Count(w[..2], c) + if w[2] == c then 1 else 0
    ensures w[..3] == w
  {
    assert w[..1][..0] == w[..0] && w[..2][..1] == w[..1] && w[..3][..2] == w[..2];
  }
}
