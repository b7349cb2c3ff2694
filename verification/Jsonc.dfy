/** JSONC of internal/adapter/adapter.go: comments and trailing commas are removed outside string literals. */
module Jsonc {
  import opened Common

  // Only ASCII bytes matter to the scanner, so a byte is written as the character of the same code.

  /** The lexical elements of JSON with comments. Spacing, punctuation and numbers are single plain characters. */
  datatype Token =
    | Literal(text: string)                   // with its quotes; the last one may lack the closing quote
    | Line(text: string, closed: bool)        // a // comment, closed by a newline or by the end of the text
    | Block(text: string)
    | Plain(c: char)

  function Raw(t: Token): string {
    match t
    case Literal(text) => text
    case Line(text, closed) => "//" + text + if closed then "\n" else ""
    case Block(text) => "/*" + text + "*/"
    case Plain(c) => [c]
  }

  function Text(ts: seq<Token>): string { if ts == [] then "" else Raw(ts[0]) + Text(ts[1..]) }

  /** RFC 8259 section 7: k is right after the closing quote, counting from just inside the opening one. */
  function AfterString(s: string, escape: bool): (k: nat)
    ensures k <= |s|
  {
    if s == [] then 0
    else if escape then 1 + AfterString(s[1..], false)
    else if s[0] == '\\' then 1 + AfterString(s[1..], true)
    else if s[0] == '"' then 1
    else 1 + AfterString(s[1..], false)
  }

  /** Ends just after a closing quote that really closes. */
  predicate Closes(s: string, escape: bool) {
    s != [] && (if escape then Closes(s[1..], false)
                else if s[0] == '\\' then Closes(s[1..], true)
                else if s[0] == '"' then |s| == 1
                else Closes(s[1..], false))
  }

  /** Runs to its end without a closing quote. */
  predicate StaysOpen(s: string, escape: bool) {
    s == [] || (if escape then StaysOpen(s[1..], false)
                else if s[0] == '\\' then StaysOpen(s[1..], true)
                else s[0] != '"' && StaysOpen(s[1..], false))
  }

  predicate Encloses(text: string) {
    text == [] || (!(text[0] == '*' && |text| > 1 && text[1] == '/') && Encloses(text[1..]))
  }

  predicate OpensComment(s: string) { |s| > 1 && s[0] == '/' && (s[1] == '/' || s[1] == '*') }

  /** The token is complete, and neither swallows nor splits the text that follows it. */
  predicate Fits(t: Token, rest: string) {
    match t
    case Literal(text) => text != [] && text[0] == '"'
      && (Closes(text[1..], false) || (StaysOpen(text[1..], false) && rest == []))
    case Line(text, closed) => '\n' !in text && (closed || rest == [])
    case Block(text) => Encloses(text)
    case Plain(c) => c != '"' && !OpensComment([c] + rest)
  }

  predicate WellFormed(ts: seq<Token>) { ts == [] || (Fits(ts[0], Text(ts[1..])) && WellFormed(ts[1..])) }

  // ---- what the two passes should yield, on tokens ----

  /** Pass one: every comment becomes one blank. */
  function Blanked(t: Token): Token {
    match t
    case Line(_, _) => Plain('\n')
    case Block(_) => Plain(' ')
    case _ => t
  }

  function Uncommented(ts: seq<Token>): seq<Token> { if ts == [] then [] else [Blanked(ts[0])] + Uncommented(ts[1..]) }

  predicate IsComment(t: Token) { t.Line? || t.Block? }

  predicate CommentFree(ts: seq<Token>) { forall t | t in ts :: !IsComment(t) }

  predicate Blank(c: char) { c == ' ' || c == '\n' || c == '\r' || c == '\t' }

  /** After some blanks comes a closing bracket. */
  predicate Closing(ts: seq<Token>) {
    ts != [] && ts[0].Plain? && (if Blank(ts[0].c) then Closing(ts[1..]) else ts[0].c == '}' || ts[0].c == ']')
  }

  /** Pass two: a comma right before a closing bracket goes. */
  function Uncommaed(ts: seq<Token>): seq<Token> {
    if ts == [] then []
    else if ts[0] == Plain(',') && Closing(ts[1..]) then Uncommaed(ts[1..])
    else [ts[0]] + Uncommaed(ts[1..])
  }

  function Clean(ts: seq<Token>): seq<Token> { Uncommaed(Uncommented(ts)) }

  /** Some comma stands right before a closing bracket. */
  predicate TrailingComma(ts: seq<Token>) {
    ts != [] && ((ts[0] == Plain(',') && Closing(ts[1..])) || TrailingComma(ts[1..]))
  }

  function Literals(ts: seq<Token>): seq<string> {
    if ts == [] then [] else (if ts[0].Literal? then [ts[0].text] else []) + Literals(ts[1..])
  }

  // ---- the scanner ----

  function AfterLine(s: string): (k: nat)
    ensures k <= |s|
  {
    if s == [] || s[0] == '\n' then 0 else 1 + AfterLine(s[1..])
  }

  /** The offset of the first closing mark, |s| when there is none. */
  function AfterBlock(s: string): (k: nat)
    ensures k <= |s| && (k < |s| ==> k + 1 < |s| && s[k] == '*' && s[k + 1] == '/')
  {
    if s == [] then 0
    else if s[0] == '*' && |s| > 1 && s[1] == '/' then 0
    else 1 + AfterBlock(s[1..])
  }

  /** The text behind the comment that s opens; none when the comment is never closed. */
  function PastComment(s: string): (r: Option<string>)
    requires OpensComment(s)
    ensures r.Some? ==> |r.value| < |s|
  {
    if s[1] == '/' then
      var k := AfterLine(s[2..]);
      Some(if k < |s| - 2 then s[k + 3..] else [])
    else
      var k := AfterBlock(s[2..]);
      if k == |s| - 2 then None else Some(s[k + 4..])
  }

  /** The first pass, one character or comment at a time. */
  function PassOne(s: string, quoted: bool, escape: bool): Option<string>
    decreases |s|
  {
    if s == [] then Some([])
    else if quoted then Prefixed([s[0]], PassOne(s[1..], escape || s[0] != '"', !escape && s[0] == '\\'))
    else if OpensComment(s) then
      var rest := PastComment(s);
      if rest.None? then None
      else Prefixed([if s[1] == '/' then '\n' else ' '], PassOne(rest.value, false, false))
    else Prefixed([s[0]], PassOne(s[1..], s[0] == '"', false))
  }

  predicate Trailing(s: string) { s != [] && (if Blank(s[0]) then Trailing(s[1..]) else s[0] == '}' || s[0] == ']') }

  function PassTwo(s: string, quoted: bool, escape: bool): string {
    if s == [] then []
    else if quoted then [s[0]] + PassTwo(s[1..], escape || s[0] != '"', !escape && s[0] == '\\')
    else if s[0] == ',' && Trailing(s[1..]) then PassTwo(s[1..], false, false)
    else [s[0]] + PassTwo(s[1..], s[0] == '"', false)
  }

  // ---- the tokens of a text ----

  function Lex(s: string): Option<seq<Token>>
    decreases |s|
  {
    if s == [] then Some([])
    else
      var t := First(s);
      if t.None? then None
      else
        var rest := Lex(s[|Raw(t.value)|..]);
        if rest.None? then None else Some([t.value] + rest.value)
  }

  /** The token a non-empty text starts with; none when it opens a comment that is never closed. */
  function First(s: string): (t: Option<Token>)
    requires s != []
    ensures t.Some? ==> 0 < |Raw(t.value)| <= |s|
  {
    if s[0] == '"' then Some(Literal(s[..1 + AfterString(s[1..], false)]))
    else if s[0] == '/' && |s| > 1 && s[1] == '/' then
      var k := AfterLine(s[2..]);
      Some(Line(s[2..k + 2], k < |s| - 2))
    else if s[0] == '/' && |s| > 1 && s[1] == '*' then
      var k := AfterBlock(s[2..]);
      if k == |s| - 2 then None else Some(Block(s[2..k + 2]))
    else Some(Plain(s[0]))
  }

  lemma {:induction false} LineShape(s: string)
    ensures var k := AfterLine(s); (k < |s| ==> s[k] == '\n') && forall i | 0 <= i < k :: s[i] != '\n'
  {
    if s != [] && s[0] != '\n' {
      LineShape(s[1..]);
      forall i | 0 <= i < AfterLine(s) ensures s[i] != '\n' {
        if i > 0 {
          assert s[i] == s[1..][i - 1];
        }
      }
    }
  }

  lemma {:induction false} StringShape(s: string, escape: bool)
    ensures var k := AfterString(s, escape); Closes(s[..k], escape) || (k == |s| && StaysOpen(s, escape))
  {
    if s != [] {
      var e := if escape then false else s[0] == '\\';
      if escape || s[0] != '"' {
        StringShape(s[1..], e);
        var k := AfterString(s, escape);
        assert s[..k][1..] == s[1..][..k - 1];
      }
    }
  }

  lemma {:induction false} StringEnd(s: string, rest: string, escape: bool)
    requires Closes(s, escape) || (StaysOpen(s, escape) && rest == [])
    ensures AfterString(s + rest, escape) == |s|
  {
    if s != [] {
      var e := if escape then false else s[0] == '\\';
      assert (s + rest)[1..] == s[1..] + rest;
      if escape || s[0] != '"' {
        StringEnd(s[1..], rest, e);
      }
    }
  }

  lemma {:induction false} BlockShape(s: string)
    ensures Encloses(s[..AfterBlock(s)])
  {
    if s != [] && !(s[0] == '*' && |s| > 1 && s[1] == '/') {
      BlockShape(s[1..]);
      assert s[..AfterBlock(s)][1..] == s[1..][..AfterBlock(s) - 1];
    }
  }

  lemma {:induction false} BlockEnd(text: string, rest: string)
    requires Encloses(text)
    ensures AfterBlock(text + "*/" + rest) == |text|
  {
    var s := text + "*/" + rest;
    if text != [] {
      assert s[1..] == text[1..] + "*/" + rest;
      BlockEnd(text[1..], rest);
    }
  }

  lemma {:induction false} LineEnd(text: string, rest: string)
    requires '\n' !in text && (rest == [] || rest[0] == '\n')
    ensures AfterLine(text + rest) == |text|
  {
    if text != [] {
      assert (text + rest)[1..] == text[1..] + rest;
      LineEnd(text[1..], rest);
    }
  }

  lemma {:induction false} TextOfCons(t: Token, ts: seq<Token>)
    ensures Text([t] + ts) == Raw(t) + Text(ts)
  {
    assert ([t] + ts)[1..] == ts;
  }

  lemma LiteralFits(s: string)
    requires s != [] && s[0] == '"'
    ensures var k := 1 + AfterString(s[1..], false); Fits(Literal(s[..k]), s[k..])
  {
    StringShape(s[1..], false);
    var k := AfterString(s[1..], false);
    assert s[..k + 1][1..] == s[1..][..k] && (k == |s| - 1 ==> s[1..][..k] == s[1..]);
  }

  lemma LineFits(s: string)
    requires OpensComment(s) && s[1] == '/'
    ensures var t := First(s).value; s == Raw(t) + s[|Raw(t)|..] && Fits(t, s[|Raw(t)|..])
  {
    var k := AfterLine(s[2..]);
    LineShape(s[2..]);
    assert s[2..k + 2] == s[2..][..k];
    assert s[..k + 2] == "//" + s[2..k + 2];
    if k < |s| - 2 {
      assert s[..k + 3] == s[..k + 2] + "\n";
    }
  }

  lemma BlockFits(s: string)
    requires OpensComment(s) && s[1] == '*' && AfterBlock(s[2..]) < |s| - 2
    ensures var t := First(s).value; s == Raw(t) + s[|Raw(t)|..] && Fits(t, s[|Raw(t)|..])
  {
    var k := AfterBlock(s[2..]);
    BlockShape(s[2..]);
    assert s[2..k + 2] == s[2..][..k];
    assert s[..k + 4] == "/*" + s[2..k + 2] + "*/";
  }

  lemma FirstFits(s: string)
    requires s != [] && First(s).Some?
    ensures var t := First(s).value; s == Raw(t) + s[|Raw(t)|..] && Fits(t, s[|Raw(t)|..])
  {
    if s[0] == '"' {
      LiteralFits(s);
    } else if !OpensComment(s) {
      assert [s[0]] + s[1..] == s;
    } else if s[1] == '/' {
      LineFits(s);
    } else {
      BlockFits(s);
    }
  }

  lemma FirstLiteral(text: string, rest: string)
    requires Fits(Literal(text), rest)
    ensures First(text + rest) == Some(Literal(text))
  {
    assert (text + rest)[1..] == text[1..] + rest;
    StringEnd(text[1..], rest, false);
    assert (text + rest)[..|text|] == text;
  }

  lemma FirstLine(text: string, closed: bool, rest: string)
    requires Fits(Line(text, closed), rest)
    ensures First(Raw(Line(text, closed)) + rest) == Some(Line(text, closed))
  {
    var tail := (if closed then "\n" else "") + rest;
    var s := Raw(Line(text, closed)) + rest;
    assert s[2..] == text + tail;
    LineEnd(text, tail);
    assert s[2..|text| + 2] == text;
  }

  lemma BlockParts(text: string, rest: string)
    ensures var s := Raw(Block(text)) + rest;
            && |s| == |text| + 4 + |rest| && s[0] == '/' && s[1] == '*'
            && s[2..] == text + "*/" + rest && s[2..|text| + 2] == text && s[|text| + 4..] == rest
  {
  }

  lemma FirstBlock(text: string, rest: string)
    requires Encloses(text)
    ensures First(Raw(Block(text)) + rest) == Some(Block(text))
  {
    BlockParts(text, rest);
    BlockEnd(text, rest);
  }

  lemma FirstOf(t: Token, rest: string)
    requires Fits(t, rest)
    ensures Raw(t) != [] && First(Raw(t) + rest) == Some(t)
  {
    match t
    case Literal(text) => FirstLiteral(text, rest);
    case Line(text, closed) => FirstLine(text, closed, rest);
    case Block(text) => FirstBlock(text, rest);
    case Plain(c) => assert [c] + rest != [];
  }

  lemma ConsWellFormed(t: Token, ts: seq<Token>)
    requires Fits(t, Text(ts)) && WellFormed(ts)
    ensures WellFormed([t] + ts) && Text([t] + ts) == Raw(t) + Text(ts)
  {
    assert ([t] + ts)[1..] == ts;
  }

  /** The lexer takes a text apart into well-formed tokens. */
  lemma {:induction false} LexIsWellFormed(s: string)
    requires Lex(s).Some?
    ensures WellFormed(Lex(s).value) && Text(Lex(s).value) == s
    decreases |s|
  {
    if s != [] {
      FirstFits(s);
      var t := First(s).value;
      var rest := s[|Raw(t)|..];
      LexIsWellFormed(rest);
      ConsWellFormed(t, Lex(rest).value);
    }
  }

  /** And every well-formed token sequence is what the lexer finds in its text: the tokens of a text are unique. */
  lemma {:induction false} LexFinds(ts: seq<Token>)
    requires WellFormed(ts)
    ensures Lex(Text(ts)) == Some(ts)
  {
    if ts != [] {
      var t, rest := ts[0], Text(ts[1..]);
      LexFinds(ts[1..]);
      FirstOf(t, rest);
      assert (Raw(t) + rest)[|Raw(t)|..] == rest;
      assert ts == [t] + ts[1..];
    }
  }

  // ---- pass one ----

  lemma {:induction false} PassOneInString(s: string, rest: string, escape: bool)
    requires Closes(s, escape) || (StaysOpen(s, escape) && rest == [])
    ensures PassOne(s + rest, true, escape) == Prefixed(s, PassOne(rest, false, false))
  {
    var end := PassOne(rest, false, false);
    if s == [] {
      assert s + rest == [] && end == Some([]);
    } else {
      assert (s + rest)[1..] == s[1..] + rest && s == [s[0]] + s[1..];
      if escape || s[0] != '"' {
        var e := if escape then false else s[0] == '\\';
        PassOneInString(s[1..], rest, e);
        assert PassOne(s + rest, true, escape) == Prefixed([s[0]], PassOne(s[1..] + rest, true, e));
        PrefixedTwice([s[0]], s[1..], end);
      } else {
        assert s[1..] + rest == rest && s == [s[0]];
      }
    }
  }

  lemma PassOneOverLiteral(text: string, rest: string)
    requires Fits(Literal(text), rest)
    ensures PassOne(text + rest, false, false) == Prefixed(text, PassOne(rest, false, false))
  {
    assert (text + rest)[1..] == text[1..] + rest && text == [text[0]] + text[1..];
    PassOneInString(text[1..], rest, false);
    PrefixedTwice([text[0]], text[1..], PassOne(rest, false, false));
  }

  lemma PassOneOverLine(text: string, closed: bool, rest: string)
    requires Fits(Line(text, closed), rest)
    ensures PassOne(Raw(Line(text, closed)) + rest, false, false) == Prefixed("\n", PassOne(rest, false, false))
  {
    var tail := (if closed then "\n" else "") + rest;
    var s := Raw(Line(text, closed)) + rest;
    assert s[2..] == text + tail;
    LineEnd(text, tail);
    assert closed ==> s[|text| + 3..] == rest;
  }

  lemma PassOneOverBlock(text: string, rest: string)
    requires Encloses(text)
    ensures PassOne(Raw(Block(text)) + rest, false, false) == Prefixed(" ", PassOne(rest, false, false))
  {
    BlockParts(text, rest);
    BlockEnd(text, rest);
  }

  /** Pass one over the text of one token. */
  lemma PassOneOverToken(t: Token, rest: string)
    requires Fits(t, rest)
    ensures PassOne(Raw(t) + rest, false, false) == Prefixed(Raw(Blanked(t)), PassOne(rest, false, false))
  {
    match t
    case Literal(text) => PassOneOverLiteral(text, rest);
    case Line(text, closed) => PassOneOverLine(text, closed, rest);
    case Block(text) => PassOneOverBlock(text, rest);
    case Plain(c) => assert ([c] + rest)[1..] == rest;
  }

  /** The character scan of pass one and its meaning on tokens agree, on failures too. */
  lemma {:induction false} PassOneBlanksComments(s: string)
    ensures PassOne(s, false, false) == (if Lex(s).Some? then Some(Text(Uncommented(Lex(s).value))) else None)
    decreases |s|
  {
    if s != [] && First(s).Some? {
      var t := First(s).value;
      var n := |Raw(t)|;
      var rest := s[n..];
      FirstFits(s);
      assert s == Raw(t) + rest;
      PassOneOverToken(t, rest);
      PassOneBlanksComments(rest);
      if Lex(rest).Some? {
        var ts := Lex(rest).value;
        assert ([t] + ts)[1..] == ts;
        TextOfCons(Blanked(t), Uncommented(ts));
      }
    }
  }

  // ---- pass two ----

  lemma {:induction false} PassTwoInString(s: string, rest: string, escape: bool)
    requires Closes(s, escape) || (StaysOpen(s, escape) && rest == [])
    ensures PassTwo(s + rest, true, escape) == s + PassTwo(rest, false, false)
  {
    if s == [] {
      assert s + rest == [];
    } else {
      assert (s + rest)[1..] == s[1..] + rest;
      if escape || s[0] != '"' {
        PassTwoInString(s[1..], rest, if escape then false else s[0] == '\\');
      }
      assert s == [s[0]] + s[1..];
    }
  }

  lemma {:induction false} TrailingIsClosing(ts: seq<Token>)
    requires WellFormed(ts) && CommentFree(ts)
    ensures Trailing(Text(ts)) == Closing(ts)
  {
    if ts != [] {
      FirstOf(ts[0], Text(ts[1..]));
      if ts[0].Plain? {
        assert Text(ts)[1..] == Text(ts[1..]);
        TrailingIsClosing(ts[1..]);
      }
    }
  }

  lemma PassTwoOverLiteral(text: string, rest: string)
    requires Fits(Literal(text), rest)
    ensures PassTwo(text + rest, false, false) == text + PassTwo(rest, false, false)
  {
    assert (text + rest)[1..] == text[1..] + rest && text == [text[0]] + text[1..];
    PassTwoInString(text[1..], rest, false);
    assert [text[0]] + (text[1..] + PassTwo(rest, false, false)) == text + PassTwo(rest, false, false);
  }

  /** Pass two finds exactly the string literals of pass one, and removes exactly the trailing commas. */
  lemma {:induction false} PassTwoDropsCommas(ts: seq<Token>)
    requires WellFormed(ts) && CommentFree(ts)
    ensures PassTwo(Text(ts), false, false) == Text(Uncommaed(ts))
  {
    if ts != [] {
      var t, rest := ts[0], ts[1..];
      PassTwoDropsCommas(rest);
      TextOfCons(t, Uncommaed(rest));
      if t.Literal? {
        PassTwoOverLiteral(t.text, Text(rest));
      } else {
        assert t in ts;
        assert ([t.c] + Text(rest))[1..] == Text(rest);
        TrailingIsClosing(rest);
      }
    }
  }

  // ---- the meaning that is kept ----

  lemma {:induction false} BlankedAll(ts: seq<Token>)
    ensures CommentFree(Uncommented(ts)) && Literals(Uncommented(ts)) == Literals(ts)
  {
    if ts != [] {
      BlankedAll(ts[1..]);
      assert Uncommented(ts)[1..] == Uncommented(ts[1..]);
    }
  }

  lemma {:induction false} UncommaedAll(ts: seq<Token>)
    requires CommentFree(ts)
    ensures CommentFree(Uncommaed(ts)) && Literals(Uncommaed(ts)) == Literals(ts)
  {
    if ts != [] {
      UncommaedAll(ts[1..]);
      var r := Uncommaed(ts[1..]);
      assert ([ts[0]] + r)[1..] == r;
    }
  }

  /** Some later text that starts the same, or with a blank or a bracket, fits too. */
  lemma StillFits(t: Token, was: string, rest: string)
    requires Fits(t, was)
    requires was == [] ==> rest == []
    requires rest != [] ==> was != [] && (rest[0] == was[0] || Blank(rest[0]) || rest[0] == '}' || rest[0] == ']')
    ensures Fits(t, rest)
  {
    if t.Plain? && rest != [] {
      assert ([t.c] + was)[1] == was[0] && ([t.c] + rest)[1] == rest[0];
    }
  }

  lemma {:induction false} UncommentedFits(ts: seq<Token>)
    requires WellFormed(ts)
    ensures WellFormed(Uncommented(ts))
    ensures var r := Text(Uncommented(ts));
            if ts == [] then r == [] else r != [] && (r[0] == Text(ts)[0] || Blank(r[0]))
  {
    if ts != [] {
      var t, rest := ts[0], ts[1..];
      UncommentedFits(rest);
      TextOfCons(Blanked(t), Uncommented(rest));
      assert ([Blanked(t)] + Uncommented(rest))[1..] == Uncommented(rest);
      FirstOf(t, Text(rest));
      if rest != [] {
        FirstOf(rest[0], Text(rest[1..]));
      }
      if IsComment(t) {
        assert !OpensComment([Blanked(t).c] + Text(Uncommented(rest)));
      } else {
        StillFits(t, Text(rest), Text(Uncommented(rest)));
      }
    }
  }

  predicate BlankOrBracket(c: char) { Blank(c) || c == '}' || c == ']' }

  lemma {:induction false} UncommaedFits(ts: seq<Token>)
    requires WellFormed(ts) && CommentFree(ts)
    ensures WellFormed(Uncommaed(ts))
    ensures var r := Text(Uncommaed(ts));
            if ts == [] then r == [] else r != [] && (r[0] == Text(ts)[0] || BlankOrBracket(r[0]))
    ensures Closing(ts) ==> Text(Uncommaed(ts))[0] == Text(ts)[0]
  {
    if ts != [] {
      var t, rest := ts[0], ts[1..];
      UncommaedFits(rest);
      TextOfCons(t, Uncommaed(rest));
      assert ([t] + Uncommaed(rest))[1..] == Uncommaed(rest);
      FirstOf(t, Text(rest));
      StillFits(t, Text(rest), Text(Uncommaed(rest)));
    }
  }

  // ---- the whole function ----

  /** JSONC as two passes over the text. */
  function Stripped(b: string): Option<string> {
    var once := PassOne(b, false, false);
    if once.Some? then Some(PassTwo(once.value, false, false)) else None
  }

  /** The code means what Clean says on tokens. */
  lemma StripsTokens(b: string)
    ensures Stripped(b) == if Lex(b).Some? then Some(Text(Clean(Lex(b).value))) else None
  {
    PassOneBlanksComments(b);
    if Lex(b).Some? {
      var ts := Lex(b).value;
      LexIsWellFormed(b);
      UncommentedFits(ts);
      BlankedAll(ts);
      PassTwoDropsCommas(Uncommented(ts));
    }
  }

  /** The result means the clean tokens, no more and no less: removing never glues two tokens into another one. */
  lemma KeepsTokens(b: string)
    requires Stripped(b).Some?
    ensures Lex(b).Some? && Lex(Stripped(b).value) == Some(Clean(Lex(b).value))
  {
    StripsTokens(b);
    var ts := Lex(b).value;
    LexIsWellFormed(b);
    UncommentedFits(ts);
    BlankedAll(ts);
    UncommaedFits(Uncommented(ts));
    LexFinds(Clean(ts));
  }

  /** The result has no comment, its string literals are those of the input, and it lexes without failing. */
  lemma KeepsLiterals(b: string)
    requires Stripped(b).Some?
    ensures Lex(b).Some? && Lex(Stripped(b).value).Some?
    ensures CommentFree(Lex(Stripped(b).value).value)
    ensures Literals(Lex(Stripped(b).value).value) == Literals(Lex(b).value)
  {
    KeepsTokens(b);
    BlankedAll(Lex(b).value);
    UncommaedAll(Uncommented(Lex(b).value));
  }

  lemma {:induction false} CleanShrinks(ts: seq<Token>)
    requires CommentFree(ts)
    ensures Uncommented(ts) == ts
    ensures |Uncommaed(ts)| <= |ts|
    ensures Uncommaed(ts) == ts <==> !TrailingComma(ts)
  {
    if ts != [] {
      assert ts[0] in ts;
      CleanShrinks(ts[1..]);
      assert [ts[0]] + ts[1..] == ts;
      assert ([ts[0]] + Uncommaed(ts[1..]))[1..] == Uncommaed(ts[1..]);
    }
  }

  /** Exactly the texts with neither comments nor trailing commas come back unchanged. */
  lemma UnchangedExactly(b: string)
    ensures Stripped(b) == Some(b) <==> Lex(b).Some? && CommentFree(Lex(b).value) && !TrailingComma(Lex(b).value)
  {
    StripsTokens(b);
    if Lex(b).Some? {
      var ts := Lex(b).value;
      LexIsWellFormed(b);
      if CommentFree(ts) {
        CleanShrinks(ts);
      }
      if Stripped(b) == Some(b) {
        KeepsTokens(b);
        KeepsLiterals(b);
      }
    }
  }

  /** Complete tokens, then an opened block comment that the text never closes. */
  function CutOff(ts: seq<Token>, body: string): string { Text(ts) + ("/*" + body) }

  ghost predicate Unterminated(b: string) {
    exists ts, body :: WellFormed(ts + [Block(body)]) && b == CutOff(ts, body)
  }

  lemma {:induction false} TextOfAppend(ts: seq<Token>, us: seq<Token>)
    ensures Text(ts + us) == Text(ts) + Text(us)
  {
    if ts == [] {
      assert ts + us == us;
    } else {
      assert (ts + us)[1..] == ts[1..] + us;
      TextOfAppend(ts[1..], us);
    }
  }

  lemma {:induction false} NeverClosed(body: string)
    requires Encloses(body)
    ensures AfterBlock(body) == |body|
  {
    if body != [] {
      NeverClosed(body[1..]);
    }
  }

  lemma CutOffCloses(ts: seq<Token>, body: string)
    ensures Text(ts + [Block(body)]) == CutOff(ts, body) + "*/"
  {
    TextOfAppend(ts, [Block(body)]);
    assert Text([Block(body)]) == "/*" + body + "*/";
    assert CutOff(ts, body) + "*/" == Text(ts) + ("/*" + body + "*/");
  }

  lemma CutOffOfCons(t: Token, ts: seq<Token>, body: string)
    ensures CutOff([t] + ts, body) == Raw(t) + CutOff(ts, body)
  {
    TextOfCons(t, ts);
  }

  lemma {:induction false} UnterminatedFails(ts: seq<Token>, body: string)
    requires WellFormed(ts + [Block(body)])
    ensures Lex(CutOff(ts, body)) == None
  {
    if ts == [] {
      assert CutOff(ts, body)[2..] == body;
      NeverClosed(body);
    } else {
      var t, later := ts[0], ts[1..] + [Block(body)];
      var rest := CutOff(ts[1..], body);
      assert (ts + [Block(body)])[1..] == later && ts == [t] + ts[1..];
      CutOffCloses(ts[1..], body);
      StillFits(t, Text(later), rest);
      FirstOf(t, rest);
      CutOffOfCons(t, ts[1..], body);
      assert (Raw(t) + rest)[|Raw(t)|..] == rest;
      UnterminatedFails(ts[1..], body);
    }
  }

  lemma FirstFailure(s: string)
    requires s != [] && First(s) == None
    ensures WellFormed([Block(s[2..])]) && s == "/*" + s[2..]
  {
    BlockShape(s[2..]);
    assert s[2..][..AfterBlock(s[2..])] == s[2..];
  }

  lemma LaterFailure(t: Token, us: seq<Token>, body: string)
    requires Fits(t, CutOff(us, body)) && WellFormed(us + [Block(body)])
    ensures WellFormed([t] + us + [Block(body)])
  {
    var later := us + [Block(body)];
    CutOffCloses(us, body);
    StillFits(t, CutOff(us, body), Text(later));
    assert [t] + us + [Block(body)] == [t] + later && ([t] + later)[1..] == later;
  }

  lemma {:induction false} FailureIsUnterminated(s: string) returns (ts: seq<Token>, body: string)
    requires Lex(s) == None
    ensures WellFormed(ts + [Block(body)]) && s == CutOff(ts, body)
    decreases |s|
  {
    if First(s).None? {
      FirstFailure(s);
      ts, body := [], s[2..];
      assert ts + [Block(body)] == [Block(body)];
    } else {
      var t := First(s).value;
      FirstFits(s);
      var us;
      us, body := FailureIsUnterminated(s[|Raw(t)|..]);
      ts := [t] + us;
      CutOffOfCons(t, us, body);
      LaterFailure(t, us, body);
    }
  }

  /** It fails exactly on an unterminated block comment. */
  lemma FailsExactly(b: string)
    ensures Stripped(b) == None <==> Unterminated(b)
  {
    StripsTokens(b);
    if Lex(b) == None {
      var ts, body := FailureIsUnterminated(b);
    }
    forall ts, body | WellFormed(ts + [Block(body)]) && b == CutOff(ts, body)
      ensures Lex(b) == None
    {
      UnterminatedFails(ts, body);
    }
  }

  // ---- the loops, by index ----

  function LineEndAt(b: string, i: nat): (j: nat)
    requires i <= |b|
    ensures i <= j <= |b|
    decreases |b| - i
  {
    if i == |b| || b[i] == '\n' then i else LineEndAt(b, i + 1)
  }

  /** Where the scan for the closing mark stops: one short of the end, or at the end, when there is none. */
  function BlockEndAt(b: string, i: nat): (j: nat)
    requires i <= |b|
    ensures i <= j <= |b|
    decreases |b| - i
  {
    if i + 1 >= |b| || (b[i] == '*' && b[i + 1] == '/') then i else BlockEndAt(b, i + 1)
  }

  function PassOneAt(b: string, i: nat, quoted: bool, escape: bool): Option<string>
    decreases |b| - i
  {
    if i >= |b| then Some([])
    else if quoted then Prefixed([b[i]], PassOneAt(b, i + 1, escape || b[i] != '"', !escape && b[i] == '\\'))
    else if b[i] == '/' && i + 1 < |b| && b[i + 1] == '/' then
      Prefixed("\n", PassOneAt(b, LineEndAt(b, i) + 1, false, false))
    else if b[i] == '/' && i + 1 < |b| && b[i + 1] == '*' then
      var j := BlockEndAt(b, i + 2);
      if j + 1 >= |b| then None else Prefixed(" ", PassOneAt(b, j + 2, false, false))
    else Prefixed([b[i]], PassOneAt(b, i + 1, b[i] == '"', false))
  }

  predicate TrailingAt(out: string, j: nat)
    decreases |out| - j
  {
    j < |out| && (if Blank(out[j]) then TrailingAt(out, j + 1) else out[j] == '}' || out[j] == ']')
  }

  function PassTwoAt(out: string, n: nat, quoted: bool, escape: bool): string
    decreases |out| - n
  {
    if n >= |out| then []
    else if quoted then [out[n]] + PassTwoAt(out, n + 1, escape || out[n] != '"', !escape && out[n] == '\\')
    else if out[n] == ',' && TrailingAt(out, n + 1) then PassTwoAt(out, n + 1, false, false)
    else [out[n]] + PassTwoAt(out, n + 1, out[n] == '"', false)
  }

  /** The text from i on; the scan may stand one past the end, after a last line comment. */
  function From(b: string, i: nat): string { if i < |b| then b[i..] else [] }

  lemma {:induction false} LineEndAtIs(b: string, i: nat)
    requires i <= |b|
    ensures LineEndAt(b, i) == i + AfterLine(b[i..])
    decreases |b| - i
  {
    if i < |b| && b[i] != '\n' {
      LineEndAtIs(b, i + 1);
      assert b[i..][1..] == b[i + 1..];
    }
  }

  lemma {:induction false} BlockEndAtIs(b: string, i: nat)
    requires i <= |b|
    ensures var k := AfterBlock(b[i..]);
            (BlockEndAt(b, i) + 1 >= |b| <==> i + k == |b|) && (i + k < |b| ==> BlockEndAt(b, i) == i + k)
    decreases |b| - i
  {
    if i < |b| {
      assert b[i..][1..] == b[i + 1..];
      if !(b[i] == '*' && i + 1 < |b| && b[i + 1] == '/') {
        BlockEndAtIs(b, i + 1);
      }
    }
  }

  lemma PastLineIs(b: string, i: nat)
    requires i + 1 < |b| && b[i] == b[i + 1] == '/'
    ensures PastComment(b[i..]) == Some(From(b, LineEndAt(b, i) + 1))
  {
    LineEndAtIs(b, i + 2);
    assert b[i..][2..] == b[i + 2..];
    assert LineEndAt(b, i) == LineEndAt(b, i + 1) == LineEndAt(b, i + 2);
  }

  lemma PastBlockIs(b: string, i: nat)
    requires i + 1 < |b| && b[i] == '/' && b[i + 1] == '*'
    ensures PastComment(b[i..]) == var j := BlockEndAt(b, i + 2); if j + 1 >= |b| then None else Some(From(b, j + 2))
  {
    BlockEndAtIs(b, i + 2);
    assert b[i..][2..] == b[i + 2..];
  }

  lemma PassOneOfChar(s: string, quoted: bool, escape: bool)
    requires s != [] && (quoted || (!escape && !OpensComment(s)))
    ensures PassOne(s, quoted, escape)
         == Prefixed([s[0]], PassOne(s[1..],
                                     if quoted then escape || s[0] != '"' else s[0] == '"',
                                     quoted && !escape && s[0] == '\\'))
  {
  }

  lemma PassOneOfComment(s: string)
    requires OpensComment(s)
    ensures var rest := PastComment(s);
            PassOne(s, false, false) == if rest.None? then None
                                        else Prefixed(if s[1] == '/' then "\n" else " ",
                                                      PassOne(rest.value, false, false))
  {
  }

  lemma CharAtIs(b: string, i: nat, quoted: bool, escape: bool, q: bool, e: bool)
    requires i < |b| && (quoted || (!escape && !OpensComment(b[i..])))
    requires q == (if quoted then escape || b[i] != '"' else b[i] == '"') && e == (quoted && !escape && b[i] == '\\')
    requires PassOneAt(b, i + 1, q, e) == PassOne(From(b, i + 1), q, e)
    ensures PassOneAt(b, i, quoted, escape) == PassOne(b[i..], quoted, escape)
  {
    PassOneOfChar(b[i..], quoted, escape);
    assert b[i..][1..] == From(b, i + 1);
  }

  lemma LineAtIs(b: string, i: nat)
    requires i + 1 < |b| && b[i] == b[i + 1] == '/'
    requires var j := LineEndAt(b, i) + 1; PassOneAt(b, j, false, false) == PassOne(From(b, j), false, false)
    ensures PassOneAt(b, i, false, false) == PassOne(b[i..], false, false)
  {
    PastLineIs(b, i);
    PassOneOfComment(b[i..]);
  }

  lemma BlockAtIs(b: string, i: nat)
    requires i + 1 < |b| && b[i] == '/' && b[i + 1] == '*'
    requires var j := BlockEndAt(b, i + 2) + 2;
             j <= |b| ==> PassOneAt(b, j, false, false) == PassOne(From(b, j), false, false)
    ensures PassOneAt(b, i, false, false) == PassOne(b[i..], false, false)
  {
    PastBlockIs(b, i);
    PassOneOfComment(b[i..]);
  }

  /** The scan by index is the scan by suffix. */
  lemma {:induction false} PassOneAtIs(b: string, i: nat, quoted: bool, escape: bool)
    requires !quoted ==> !escape
    ensures PassOneAt(b, i, quoted, escape) == PassOne(From(b, i), quoted, escape)
    decreases |b| - i
  {
    if i < |b| {
      var c := b[i];
      if quoted || !OpensComment(b[i..]) {
        var q, e := if quoted then escape || c != '"' else c == '"', quoted && !escape && c == '\\';
        PassOneAtIs(b, i + 1, q, e);
        CharAtIs(b, i, quoted, escape, q, e);
      } else if b[i + 1] == '/' {
        PassOneAtIs(b, LineEndAt(b, i) + 1, false, false);
        LineAtIs(b, i);
      } else {
        var j := BlockEndAt(b, i + 2) + 2;
        if j <= |b| {
          PassOneAtIs(b, j, false, false);
        }
        BlockAtIs(b, i);
      }
    }
  }

  lemma {:induction false} TrailingAtIs(out: string, j: nat)
    requires j <= |out|
    ensures TrailingAt(out, j) == Trailing(out[j..])
    decreases |out| - j
  {
    if j < |out| {
      TrailingAtIs(out, j + 1);
      assert out[j..][1..] == out[j + 1..];
    }
  }

  lemma {:induction false} PassTwoAtIs(out: string, n: nat, quoted: bool, escape: bool)
    requires n <= |out| && (!quoted ==> !escape)
    ensures PassTwoAt(out, n, quoted, escape) == PassTwo(out[n..], quoted, escape)
    decreases |out| - n
  {
    if n < |out| {
      var c := out[n];
      assert out[n..][1..] == out[n + 1..];
      TrailingAtIs(out, n + 1);
      if quoted {
        PassTwoAtIs(out, n + 1, escape || c != '"', !escape && c == '\\');
      } else {
        PassTwoAtIs(out, n + 1, c == '"', false);
      }
    }
  }

  method WithoutComments(b: string) returns (r: Option<string>)
    ensures r == PassOneAt(b, 0, false, false)
  {
    var out := [];
    var quoted, escape := false, false;
    var i := 0;
    PrefixedNothing(PassOneAt(b, 0, false, false));
    while i < |b|
      invariant 0 <= i <= |b| + 1
      invariant !quoted ==> !escape
      invariant PassOneAt(b, 0, false, false) == Prefixed(out, PassOneAt(b, i, quoted, escape))
    {
      var c := b[i];
      if quoted {
        PrefixedTwice(out, [c], PassOneAt(b, i + 1, escape || c != '"', !escape && c == '\\'));
        out := out + [c];
        if escape {
          escape := false;
        } else if c == '\\' {
          escape := true;
        } else if c == '"' {
          quoted := false;
        }
      } else if c == '/' && i + 1 < |b| && b[i + 1] == '/' {
        ghost var end := LineEndAt(b, i);
        while i < |b| && b[i] != '\n'
          invariant i <= |b| && LineEndAt(b, i) == end
        {
          i := i + 1;
        }
        PrefixedTwice(out, "\n", PassOneAt(b, i + 1, false, false));
        out := out + ['\n'];
      } else if c == '/' && i + 1 < |b| && b[i + 1] == '*' {
        i := i + 2;
        ghost var end := BlockEndAt(b, i);
        while i + 1 < |b| && !(b[i] == '*' && b[i + 1] == '/')
          invariant i <= |b| && BlockEndAt(b, i) == end
        {
          i := i + 1;
        }
        if i + 1 >= |b| {
          return None;
        }
        PrefixedTwice(out, " ", PassOneAt(b, i + 2, false, false));
        i := i + 1;
        out := out + [' '];
      } else {
        PrefixedTwice(out, [c], PassOneAt(b, i + 1, c == '"', false));
        quoted := c == '"';
        out := out + [c];
      }
      i := i + 1;
    }
    assert out + [] == out;
    return Some(out);
  }

  lemma Reassociated(p: string, q: string, r: string)
    ensures p + (q + r) == p + q + r
  {
  }

  method WithoutCommas(out: string) returns (clean: string)
    ensures clean == PassTwoAt(out, 0, false, false)
  {
    clean := [];
    var quoted, escape := false, false;
    ghost var left := PassTwoAt(out, 0, false, false);
    for n := 0 to |out|
      invariant !quoted ==> !escape
      invariant left == PassTwoAt(out, n, quoted, escape)
      invariant PassTwoAt(out, 0, false, false) == clean + left
    {
      var c := out[n];
      if quoted {
        left := PassTwoAt(out, n + 1, escape || c != '"', !escape && c == '\\');
        Reassociated(clean, [c], left);
        clean := clean + [c];
        if escape {
          escape := false;
        } else if c == '\\' {
          escape := true;
        } else if c == '"' {
          quoted := false;
        }
        continue;
      }
      if c == '"' {
        quoted := true;
      }
      left := PassTwoAt(out, n + 1, quoted, false);
      if c == ',' {
        var j := n + 1;
        while j < |out| && Blank(out[j])
          invariant n < j <= |out| && TrailingAt(out, j) == TrailingAt(out, n + 1)
        {
          j := j + 1;
        }
        if j < |out| && (out[j] == '}' || out[j] == ']') {
          continue;
        }
      }
      Reassociated(clean, [c], left);
      clean := clean + [c];
    }
  }

  /** JSONC fails on an unterminated comment; otherwise it removes what Clean removes from the tokens of the text. */
  method JSONC(b: string) returns (r: Option<string>)
    ensures r == Stripped(b)
    ensures r == None <==> Unterminated(b)
    ensures r.Some? ==> Lex(b).Some? && Lex(r.value) == Some(Clean(Lex(b).value))
  {
    FailsExactly(b);
    PassOneAtIs(b, 0, false, false);
    assert From(b, 0) == b;
    var once := WithoutComments(b);
    if once == None {
      return None;
    }
    var clean := WithoutCommas(once.value);
    PassTwoAtIs(once.value, 0, false, false);
    assert once.value[0..] == once.value;
    KeepsTokens(b);
    return Some(clean);
  }
}
