/** The pure helpers of ProjectAnalyzeCli: the quoting of JSON string
    values, and the choice of extractor from the `--parser=` argument. Its
    nullSafe and sanitize behave exactly as GraphBuilder.NullSafe and
    Mermaid.Sanitize, which stand for them. */
module Cli {
  import opened Base
  import opened Text
  import opened Extractors

  // ---------------------------------------------------------------------
  // jsonString
  // ---------------------------------------------------------------------

  /** The two `String.replace` calls of jsonString, in their order:
      backslashes first, then double quotes. */
  function Escaped(v: string): string
  {
    Replace(Replace(v, '\\', "\\\\"), '"', "\\\"")
  }

  /** jsonString: `null` for a null value, else the value escaped and put
      between double quotes. No other character is escaped. */
  function JsonString(value: Option<string>): string
  {
    if value.None? then "null" else "\"" + Escaped(value.value) + "\""
  }

  /** What one character of the value turns into. */
  function EscapeChar(c: char): string
  {
    if c == '\\' then "\\\\" else if c == '"' then "\\\"" else [c]
  }

  /** Escaping character by character. */
  function EscapedEach(v: string): string
  {
    if v == [] then [] else EscapeChar(v[0]) + EscapedEach(v[1..])
  }

  /** Replacing distributes over concatenation. */
  lemma {:induction false} ReplaceConcat(a: string, b: string, c: char, rep: string)
    ensures Replace(a + b, c, rep) == Replace(a, c, rep) + Replace(b, c, rep)
  {
    if a != [] {
      ReplaceConcat(a[1..], b, c, rep);
      assert (a + b)[1..] == a[1..] + b;
    } else {
      assert a + b == b;
    }
  }

  /** A two-character string without `c` is left as it is. */
  lemma ReplacePair(x: char, y: char, c: char, rep: string)
    requires x != c && y != c
    ensures Replace([x, y], c, rep) == [x, y]
  {
    assert [x, y] == [x] + [y];
    ReplaceConcat([x], [y], c, rep);
    ReplaceOne(x, c, rep);
    ReplaceOne(y, c, rep);
  }

  /** A one-character string is replaced as that character. */
  lemma ReplaceOne(x: char, c: char, rep: string)
    ensures Replace([x], c, rep) == if x == c then rep else [x]
  {
    assert [x][1..] == [];
  }

  /** The two passes escape each character on its own: the backslashes the
      first pass writes are not touched by the second. */
  lemma {:induction false} EscapedIsEach(v: string)
    ensures Escaped(v) == EscapedEach(v)
  {
    if v != [] {
      EscapedIsEach(v[1..]);
      var c := v[0];
      var first := if c == '\\' then "\\\\" else [c];
      assert Replace(v, '\\', "\\\\") == first + Replace(v[1..], '\\', "\\\\");
      ReplaceConcat(first, Replace(v[1..], '\\', "\\\\"), '"', "\\\"");
      if c == '\\' {
        ReplacePair('\\', '\\', '"', "\\\"");
      } else {
        ReplaceOne(c, '"', "\\\"");
      }
    }
  }

  /** Every character costs one, and a backslash or a quote one more. */
  lemma {:induction false} EscapedEachLength(v: string)
    ensures |EscapedEach(v)| == |v| + Count(v, '\\') + Count(v, '"')
  {
    if v != [] {
      EscapedEachLength(v[1..]);
    }
  }

  /** The quoted value is two quotes longer than the value, plus one
      backslash per backslash and per quote in it. */
  lemma JsonStringLength(v: string)
    ensures |JsonString(Some(v))| == |v| + 2 + Count(v, '\\') + Count(v, '"')
  {
    EscapedIsEach(v);
    EscapedEachLength(v);
  }

  /** A JSON reader's view of a string body: characters up to the first
      unescaped quote, with `\\` and `\"` decoded, and the text after that
      quote. Escapes other than these two are not read. */
  function ReadBody(s: string): Option<(string, string)>
  {
    if s == [] then None
    else if s[0] == '"' then Some(([], s[1..]))
    else if s[0] == '\\' then
      if |s| < 2 || (s[1] != '\\' && s[1] != '"') then None
      else match ReadBody(s[2..])
        case None => None
        case Some(read) => Some(([s[1]] + read.0, read.1))
    else match ReadBody(s[1..])
      case None => None
      case Some(read) => Some(([s[0]] + read.0, read.1))
  }

  /** Reads a JSON string value off the front of `s`. */
  function ReadJsonString(s: string): Option<(string, string)>
  {
    if s == [] || s[0] != '"' then None else ReadBody(s[1..])
  }

  lemma {:induction false} ReadBodyOf(v: string, more: string)
    ensures ReadBody(EscapedEach(v) + "\"" + more) == Some((v, more))
  {
    if v == [] {
      assert EscapedEach(v) + "\"" + more == ['"'] + more;
    } else {
      ReadBodyOf(v[1..], more);
      var rest := EscapedEach(v[1..]) + "\"" + more;
      ReadBodyCons(v[0], rest, v[1..], more);
      assert EscapedEach(v) == EscapeChar(v[0]) + EscapedEach(v[1..]);
      Prepend(EscapeChar(v[0]), EscapedEach(v[1..]), "\"", more);
      assert [v[0]] + v[1..] == v;
    }
  }

  lemma Prepend<T>(a: seq<T>, b: seq<T>, c: seq<T>, d: seq<T>)
    ensures a + b + c + d == a + (b + c + d)
  {
  }

  /** One escaped character in front of a body reads back as that character
      in front of what the body reads as. */
  lemma ReadBodyCons(c: char, rest: string, tail: string, more: string)
    requires ReadBody(rest) == Some((tail, more))
    ensures ReadBody(EscapeChar(c) + rest) == Some(([c] + tail, more))
  {
    var s := EscapeChar(c) + rest;
    if c == '\\' || c == '"' {
      assert s[2..] == rest;
    } else {
      assert s[1..] == rest;
    }
  }

  /** Round trip: reading the quoted value back, whatever follows it, gives
      the value and stops right after its closing quote, so a quote or a
      backslash inside the value can neither end the string early nor
      swallow the text after it. */
  lemma JsonStringReadsBack(v: string, more: string)
    ensures ReadJsonString(JsonString(Some(v)) + more) == Some((v, more))
  {
    EscapedIsEach(v);
    ReadBodyOf(v, more);
    Unquote('"', EscapedEach(v), more);
  }

  /** Dropping the opening quote of a quoted body leaves the body, its
      closing quote and what follows. */
  lemma Unquote<T>(q: T, body: seq<T>, more: seq<T>)
    ensures var s := [q] + body + [q] + more; |s| > 0 && s[0] == q && s[1..] == body + [q] + more
  {
    var s := [q] + body + [q] + more;
    assert s == [q] + (body + [q] + more);
  }

  // ---------------------------------------------------------------------
  // parseExtractor
  // ---------------------------------------------------------------------

  const ParserFlag: string := "--parser="

  /** The mode named by a non-blank argument: trimmed, lower-cased, with a
      leading `--parser=` dropped. */
  function Mode(arg: string): string
  {
    var n := Lower(Trim(arg));
    if StartsWith(n, ParserFlag) then n[|ParserFlag|..] else n
  }

  /** parseExtractor. `classpath` is what the AST extractor will be able to
      load; an absent or blank argument selects the regex extractor. */
  function ParseExtractor(arg: Option<string>, classpath: set<string>): Result<Extractor>
  {
    if arg.None? || IsBlank(arg.value) then Ok(RegexExtractor)
    else
      var mode := Mode(arg.value);
      if mode == "ast" then Ok(AstExtractor(classpath))
      else if mode == "regex" then Ok(RegexExtractor)
      else Err(IllegalArgument("Unknown parser mode: " + arg.value))
  }

  /** Dropping the flag leaves `m` exactly when the normalised argument is
      the flag followed by `m`, or `m` itself when `m` could not start with
      the flag. */
  lemma ModeIs(arg: string, m: string)
    requires |m| < |ParserFlag|
    ensures Mode(arg) == m <==> Lower(Trim(arg)) == m || Lower(Trim(arg)) == ParserFlag + m
  {
    var n := Lower(Trim(arg));
    if StartsWith(n, ParserFlag) {
      assert n == ParserFlag + n[|ParserFlag|..];
      assert n != m;
    } else {
      assert (ParserFlag + m)[..|ParserFlag|] == ParserFlag;
    }
  }

  /** The accepted arguments, after trimming and lower-casing: `ast` or
      `--parser=ast` select the AST extractor, `regex` or `--parser=regex`
      the regex one, and anything else non-blank is refused with a message
      quoting the argument as given. */
  lemma ParseExtractorModes(arg: string, classpath: set<string>)
    requires !IsBlank(arg)
    ensures ParseExtractor(Some(arg), classpath) == Ok(AstExtractor(classpath))
            <==> Lower(Trim(arg)) == "ast" || Lower(Trim(arg)) == "--parser=ast"
    ensures ParseExtractor(Some(arg), classpath) == Ok(RegexExtractor)
            <==> Lower(Trim(arg)) == "regex" || Lower(Trim(arg)) == "--parser=regex"
    ensures ParseExtractor(Some(arg), classpath).Err?
            ==> ParseExtractor(Some(arg), classpath).error == IllegalArgument("Unknown parser mode: " + arg)
  {
    ParseSelects(arg, classpath, "ast", Ok(AstExtractor(classpath)));
    ParseSelects(arg, classpath, "regex", Ok(RegexExtractor));
    assert ParserFlag + "ast" == "--parser=ast";
    assert ParserFlag + "regex" == "--parser=regex";
    ParseNonBlank(arg, classpath);
  }

  /** The outcome a mode selects is reached exactly through that mode. */
  lemma ParseSelects(arg: string, classpath: set<string>, m: string, chosen: Result<Extractor>)
    requires !IsBlank(arg)
    requires (m == "ast" && chosen == Ok(AstExtractor(classpath))) || (m == "regex" && chosen == Ok(RegexExtractor))
    ensures ParseExtractor(Some(arg), classpath) == chosen
            <==> Lower(Trim(arg)) == m || Lower(Trim(arg)) == ParserFlag + m
  {
    ModeIs(arg, m);
    ParseNonBlank(arg, classpath);
  }

  /** A non-blank argument is read through its mode. */
  lemma ParseNonBlank(arg: string, classpath: set<string>)
    requires !IsBlank(arg)
    ensures ParseExtractor(Some(arg), classpath)
         == if Mode(arg) == "ast" then Ok(AstExtractor(classpath))
            else if Mode(arg) == "regex" then Ok(RegexExtractor)
            else Err(IllegalArgument("Unknown parser mode: " + arg))
  {
  }

  /** Without an argument, or with a blank one, the regex extractor is used. */
  lemma ParseExtractorDefault(arg: Option<string>, classpath: set<string>)
    requires arg.None? || IsBlank(arg.value)
    ensures ParseExtractor(arg, classpath) == Ok(RegexExtractor)
  {
  }
}
