/**
A filter option's value, escaped for both levels a filtergraph is read at, and
the reader: libavutil's token scan (`\` escapes, `'` quotes, unprotected
whitespace trimmed at both ends), run over the graph and again over the options.
*/
module Escaping {

  /** Python's `\s` over text. */
  predicate IsPythonSpace(c: char)
  {
    c in "\t\n\r \U{000B}\U{000C}\U{001C}\U{001D}\U{001E}\U{001F}\U{0085}\U{00A0}\U{1680}\U{2028}\U{2029}\U{202F}\U{205F}\U{3000}"
    || '\U{2000}' <= c <= '\U{200A}'
  }

  /** The characters a token is trimmed of. */
  predicate IsBlank(c: char) { c in " \n\t\r" }

  predicate IsLevel1(c: char) { c in "\\':=" }

  predicate IsLevel2(c: char) { c in "\\'[],;#" || IsPythonSpace(c) }

  function Escape1(s: string): string
  {
    if s == "" then "" else (if IsLevel1(s[0]) then ['\\', s[0]] else [s[0]]) + Escape1(s[1..])
  }

  function Escape2(s: string): string
  {
    if s == "" then "" else (if IsLevel2(s[0]) then ['\\', s[0]] else [s[0]]) + Escape2(s[1..])
  }

  function EscapeValue(s: string): string
  {
    if s == "" then "''" else Escape2(Escape1(s))
  }

  // The reader

  function SkipBlanks(s: string): (rest: string)
    ensures |rest| <= |s|
    ensures rest != "" ==> !IsBlank(rest[0])
  {
    if s != "" && IsBlank(s[0]) then SkipBlanks(s[1..]) else s
  }

  function QuoteEnd(s: string): (end: nat)
    ensures end <= |s|
  {
    if s == "" || s[0] == '\'' then 0 else 1 + QuoteEnd(s[1..])
  }

  datatype Scanned = Scanned(text: string, kept: nat, rest: string)

  /** One token's characters up to a terminator: the text so far, how much of
      it a quote or a backslash protects from trimming, and what follows. */
  function Scan(s: string, terms: string, text: string, kept: nat): (r: Scanned)
    requires kept <= |text|
    ensures |r.rest| <= |s| && r.kept <= |r.text|
    ensures r.rest != "" ==> r.rest[0] in terms
    decreases |s|
  {
    if s == "" || s[0] in terms then Scanned(text, kept, s)
    else if s[0] == '\\' && |s| > 1 then Scan(s[2..], terms, text + [s[1]], |text| + 1)
    else if s[0] == '\'' then
      var end := QuoteEnd(s[1..]);
      if end == |s| - 1 then Scanned(text + s[1..], kept, "")
      else Scan(s[end + 2..], terms, text + s[1..end + 1], |text| + end)
    else Scan(s[1..], terms, text + [s[0]], kept)
  }

  function TrimFrom(text: string, kept: nat): (trimmed: string)
    requires kept <= |text|
    ensures kept <= |trimmed| && trimmed <= text
    ensures |trimmed| > kept ==> !IsBlank(trimmed[|trimmed| - 1])
  {
    if |text| > kept && IsBlank(text[|text| - 1]) then TrimFrom(text[..|text| - 1], kept) else text
  }

  /** One token and what follows it; `trims` off leaves blanks where they are. */
  function Token(s: string, terms: string, trims: bool): (r: (string, string))
    ensures |r.1| <= |s|
    ensures r.1 != "" ==> r.1[0] in terms
  {
    var scanned := Scan(if trims then SkipBlanks(s) else s, terms, "", 0);
    (if trims then TrimFrom(scanned.text, scanned.kept) else scanned.text, scanned.rest)
  }

  const OPTION_ENDS := ":"
  const FILTER_ENDS := "[],;"

  predicate IsKeyChar(c: char)
  {
    'a' <= c <= 'z' || 'A' <= c <= 'Z' || '0' <= c <= '9' || c in "-_/."
  }

  function SkipKey(s: string): (rest: string)
    ensures |rest| <= |s|
  {
    if s != "" && IsKeyChar(s[0]) then SkipKey(s[1..]) else s
  }

  datatype Argument = Keyed(key: string, value: string) | Positional(value: string)

  /** The key before an unescaped `=`, when there is one. */
  function KeyEnd(s: string): (end: int)
    ensures -1 <= end < |s|
  {
    var start := SkipBlanks(s);
    var after := SkipBlanks(SkipKey(start));
    if after != "" && after[0] == '=' then |s| - |after| else -1
  }

  /** An option string split at unescaped `:` and each part at its key. */
  function ReadOptions(s: string, trims: bool): seq<Argument>
    decreases |s|
  {
    if s == "" then []
    else
      var end := KeyEnd(s);
      var token := Token(if end < 0 then s else s[end + 1..], OPTION_ENDS, trims);
      var start := SkipBlanks(s);
      var argument :=
        if end < 0 then Positional(token.0) else Keyed(start[..|start| - |SkipKey(start)|], token.0);
      [argument] + (if token.1 == "" then [] else ReadOptions(token.1[1..], trims))
  }

  // Reading back one escaped value

  /** Nothing past `kept` is a blank a trim would take. */
  predicate Tight(text: string, kept: nat)
  {
    kept <= |text| && forall i :: kept <= i < |text| ==> !IsBlank(text[i])
  }

  lemma {:induction false} TightTrim(text: string, kept: nat)
    requires Tight(text, kept)
    ensures TrimFrom(text, kept) == text
  {
  }

  lemma Joined<T>(a: seq<T>, b: seq<T>, c: seq<T>)
    ensures a + b + c == a + (b + c)
    ensures a == [] ==> a + b == b
  {
  }

  lemma Moved<T>(text: seq<T>, x: seq<T>)
    requires x != []
    ensures text + [x[0]] + x[1..] == text + x
  {
  }

  lemma PlainAt2(c: char)
    requires !IsLevel2(c)
    ensures c != '\\' && c != '\'' && c !in FILTER_ENDS && !IsBlank(c)
  {
  }

  lemma PlainAt1(c: char)
    requires !IsLevel1(c)
    ensures c != '\\' && c != '\'' && c !in OPTION_ENDS
  {
  }

  /** Scanning text escaped for the graph gives the text, whatever follows. */
  lemma {:induction false} ScanEscaped2(x: string, rest: string, text: string, kept: nat) returns (kept': nat)
    requires Tight(text, kept)
    ensures Tight(text + x, kept')
    ensures Scan(Escape2(x) + rest, FILTER_ENDS, text, kept) == Scan(rest, FILTER_ENDS, text + x, kept')
    decreases |x|
  {
    hide Scan, IsLevel1, IsLevel2, IsBlank;
    if x == "" {
      kept' := kept;
      Joined("", rest, "");
      assert text + x == text;
    } else {
      var more := Escape2(x[1..]) + rest;
      var first := if IsLevel2(x[0]) then ['\\', x[0]] else [x[0]];
      Joined(first, Escape2(x[1..]), rest);
      Moved(text, x);
      if !IsLevel2(x[0]) {
        PlainAt2(x[0]);
      }
      ScanOne(x[0], first, more, FILTER_ENDS, text, kept);
      kept' := ScanEscaped2(x[1..], rest, text + [x[0]], if IsLevel2(x[0]) then |text| + 1 else kept);
    }
  }

  /** Scanning a value escaped for its option string gives the value; a blank at
      the end is left unprotected. */
  lemma {:induction false} ScanEscaped1(x: string, rest: string, text: string, kept: nat) returns (kept': nat)
    requires kept <= |text|
    ensures kept' <= |text + x| && (x == "" ==> kept' == kept)
    ensures x != "" && !IsLevel1(x[|x| - 1]) ==> kept' < |text + x|
    ensures Scan(Escape1(x) + rest, OPTION_ENDS, text, kept) == Scan(rest, OPTION_ENDS, text + x, kept')
    decreases |x|
  {
    hide Scan, IsLevel1, IsLevel2, IsBlank;
    if x == "" {
      kept' := kept;
      Joined("", rest, "");
      assert text + x == text;
    } else {
      var more := Escape1(x[1..]) + rest;
      var first := if IsLevel1(x[0]) then ['\\', x[0]] else [x[0]];
      Joined(first, Escape1(x[1..]), rest);
      Moved(text, x);
      if !IsLevel1(x[0]) {
        PlainAt1(x[0]);
      }
      ScanOne(x[0], first, more, OPTION_ENDS, text, kept);
      var after := if IsLevel1(x[0]) then |text| + 1 else kept;
      kept' := ScanEscaped1(x[1..], rest, text + [x[0]], after);
    }
  }

  /** One character, escaped or not, moves the scan over it. */
  lemma ScanOne(c: char, first: string, more: string, terms: string, text: string, kept: nat)
    requires kept <= |text|
    requires first == ['\\', c] || (first == [c] && c != '\\' && c != '\'' && c !in terms)
    requires '\\' !in terms
    ensures Scan(first + more, terms, text, kept)
         == Scan(more, terms, text + [c], if |first| == 2 then |text| + 1 else kept)
  {
    var s := first + more;
    if |first| == 2 {
      assert s[0] == '\\' && s[1] == c && s[2..] == more;
    } else {
      assert s[0] == c && s[1..] == more;
    }
  }

  /** No blank at either end. */
  predicate Unblanked(v: string)
  {
    v == "" || (!IsBlank(v[0]) && !IsBlank(v[|v| - 1]))
  }

  /** `rest` ends an option where it stands. */
  predicate EndsOption(rest: string) { rest == "" || rest[0] == ':' }

  lemma Escape1First(v: string)
    requires v != ""
    ensures Escape1(v) != ""
    ensures Escape1(v)[0] == if IsLevel1(v[0]) then '\\' else v[0]
  {
  }

  /** A value that begins with no blank is trimmed at its end alone. */
  lemma ValueScanned(v: string, rest: string, trims: bool) returns (kept: nat)
    requires EndsOption(rest) && (trims && v != "" ==> !IsBlank(v[0]))
    ensures kept <= |v| && (v != "" && !IsLevel1(v[|v| - 1]) ==> kept < |v|)
    ensures Token(Escape1(v) + rest, OPTION_ENDS, trims) == (if trims then TrimFrom(v, kept) else v, rest)
  {
    var s := Escape1(v) + rest;
    if v != "" {
      Escape1First(v);
      assert s[0] == Escape1(v)[0];
    } else {
      assert s == rest;
    }
    assert trims ==> SkipBlanks(s) == s;
    kept := ScanEscaped1(v, rest, "", 0);
    assert "" + v == v;
    assert Scan(rest, OPTION_ENDS, v, kept) == Scanned(v, kept, rest);
  }

  /** A value's own escaping reads back whole exactly when no blank stands at
      either end of it: the option string is trimmed after the graph's escaping
      is gone. Read without the trim it always does. */
  lemma {:induction false} ValueReadsBack(v: string, rest: string, trims: bool)
    requires EndsOption(rest)
    ensures Token(Escape1(v) + rest, OPTION_ENDS, trims).1 == rest
    ensures Token(Escape1(v) + rest, OPTION_ENDS, trims).0 == v <==> (trims ==> Unblanked(v))
    ensures |Token(Escape1(v) + rest, OPTION_ENDS, trims).0| <= |v|
    decreases |v|
  {
    if trims && v != "" && IsBlank(v[0]) {
      var s := Escape1(v) + rest;
      assert s == [v[0]] + (Escape1(v[1..]) + rest);
      assert s[1..] == Escape1(v[1..]) + rest;
      assert SkipBlanks(s) == SkipBlanks(s[1..]);
      ValueReadsBack(v[1..], rest, trims);
    } else {
      var kept := ValueScanned(v, rest, trims);
      if trims && v != "" && IsBlank(v[|v| - 1]) {
        assert TrimFrom(v, kept) == TrimFrom(v[..|v| - 1], kept);
      }
    }
  }

  // Reading back an option string

  predicate IsKey(key: string)
  {
    key != "" && forall i :: 0 <= i < |key| ==> IsKeyChar(key[i])
  }

  function Written(a: Argument): string
  {
    match a
    case Keyed(key, value) => key + "=" + EscapeValue(value)
    case Positional(value) => EscapeValue(value)
  }

  /** What the graph's own unescaping leaves of one argument. */
  function Level1(a: Argument): string
  {
    match a
    case Keyed(key, value) => key + "=" + Escape1(value)
    case Positional(value) => Escape1(value)
  }

  function WrittenAll(args: seq<Argument>): string
  {
    if args == [] then "" else if |args| == 1 then Written(args[0]) else Written(args[0]) + ":" + WrittenAll(args[1..])
  }

  function Level1All(args: seq<Argument>): string
  {
    if args == [] then "" else if |args| == 1 then Level1(args[0]) else Level1(args[0]) + ":" + Level1All(args[1..])
  }

  predicate WellKeyed(args: seq<Argument>)
  {
    forall i :: 0 <= i < |args| && args[i].Keyed? ==> IsKey(args[i].key)
  }

  lemma {:induction false} SkipBlanksEscaped(v: string, rest: string) returns (v': string)
    requires EndsOption(rest)
    ensures SkipBlanks(Escape1(v) + rest) == Escape1(v') + rest
    decreases |v|
  {
    var s := Escape1(v) + rest;
    if v != "" && IsBlank(v[0]) {
      assert s[1..] == Escape1(v[1..]) + rest;
      v' := SkipBlanksEscaped(v[1..], rest);
    } else {
      v' := v;
      if v != "" {
        Escape1First(v);
        assert s[0] == Escape1(v)[0];
      } else {
        assert s == rest;
      }
    }
  }

  lemma {:induction false} SkipKeyEscaped(v: string, rest: string) returns (v': string)
    requires EndsOption(rest)
    ensures SkipKey(Escape1(v) + rest) == Escape1(v') + rest
    decreases |v|
  {
    var s := Escape1(v) + rest;
    if v != "" && IsKeyChar(v[0]) {
      assert s[1..] == Escape1(v[1..]) + rest;
      v' := SkipKeyEscaped(v[1..], rest);
    } else {
      v' := v;
      if v != "" {
        Escape1First(v);
        assert s[0] == Escape1(v)[0];
      } else {
        assert s == rest;
      }
    }
  }

  /** A value alone is never read as a key: its own `=` is escaped. */
  lemma ValueHasNoKey(v: string, rest: string)
    requires EndsOption(rest)
    ensures KeyEnd(Escape1(v) + rest) == -1
  {
    var v1 := SkipBlanksEscaped(v, rest);
    var v2 := SkipKeyEscaped(v1, rest);
    var v3 := SkipBlanksEscaped(v2, rest);
    var after := Escape1(v3) + rest;
    if v3 != "" {
      Escape1First(v3);
      assert after[0] == Escape1(v3)[0];
    } else {
      assert after == rest;
    }
  }

  lemma {:induction false} SkipKeyOver(key: string, rest: string)
    requires forall i :: 0 <= i < |key| ==> IsKeyChar(key[i])
    requires rest == "" || !IsKeyChar(rest[0])
    ensures SkipKey(key + rest) == rest
  {
    if key == "" {
      assert key + rest == rest;
    } else {
      assert (key + rest)[1..] == key[1..] + rest;
      SkipKeyOver(key[1..], rest);
    }
  }

  lemma KeyFound(key: string, more: string)
    requires IsKey(key)
    ensures var s := key + "=" + more;
      && KeyEnd(s) == |key| && s[|key| + 1..] == more
      && SkipBlanks(s) == s && s[..|s| - |SkipKey(s)|] == key
  {
    var s := key + "=" + more;
    assert s == key + ("=" + more) && s[0] == key[0];
    SkipKeyOver(key, "=" + more);
    assert ("=" + more)[0] == '=';
  }

  /** One option of an option string: the argument read, and what follows. */
  lemma ArgumentReadsBack(a: Argument, rest: string, trims: bool) returns (b: Argument)
    requires WellKeyed([a]) && EndsOption(rest) && Level1(a) + rest != ""
    ensures ReadOptions(Level1(a) + rest, trims) == [b] + (if rest == "" then [] else ReadOptions(rest[1..], trims))
    ensures b == a <==> (trims ==> Unblanked(a.value))
  {
    hide Token, Scan, SkipBlanks, SkipKey, KeyEnd, Escape1, Unblanked, IsKeyChar;
    var s := Level1(a) + rest;
    assert [a][0] == a;
    ValueReadsBack(a.value, rest, trims);
    var token := Token(Escape1(a.value) + rest, OPTION_ENDS, trims);
    match a
    case Keyed(key, value) =>
      KeyFound(key, Escape1(value) + rest);
      assert s == key + "=" + (Escape1(value) + rest);
      b := Keyed(key, token.0);
    case Positional(value) =>
      ValueHasNoKey(value, rest);
      b := Positional(token.0);
  }

  /** Every value survives both levels, and an empty one that names no key is
      not the last: the reader stops where the string does. */
  predicate Readable(args: seq<Argument>, trims: bool)
  {
    && (trims ==> forall i :: 0 <= i < |args| ==> Unblanked(args[i].value))
    && (args != [] ==> args[|args| - 1] != Positional(""))
  }

  lemma ReadableFirst(args: seq<Argument>, trims: bool)
    requires args != []
    ensures Readable(args, trims) <==> ((trims ==> Unblanked(args[0].value))
      && (if |args| == 1 then args[0] != Positional("") else Readable(args[1..], trims)))
  {
  }

  lemma NothingWritten(a: Argument)
    ensures Level1(a) == "" <==> a == Positional("")
  {
    if a.value != "" {
      Escape1First(a.value);
    }
  }

  /** An option string reads back as its arguments exactly when they are
      readable; without the trim, blanks do not matter. */
  lemma {:induction false} OptionsReadBack(args: seq<Argument>, trims: bool)
    requires WellKeyed(args)
    ensures ReadOptions(Level1All(args), trims) == args <==> Readable(args, trims)
    decreases |args|
  {
    if args == [] {
    } else if |args| == 1 {
      OneReadsBack(args, trims);
    } else {
      OptionsReadBack(args[1..], trims);
      MoreReadBack(args, trims);
    }
  }

  lemma OneReadsBack(args: seq<Argument>, trims: bool)
    requires WellKeyed(args) && |args| == 1
    ensures ReadOptions(Level1All(args), trims) == args <==> Readable(args, trims)
  {
    ReadableFirst(args, trims);
    NothingWritten(args[0]);
    assert Level1All(args) == Level1(args[0]) && Level1(args[0]) + "" == Level1(args[0]) && args == [args[0]];
    assert ReadOptions("", trims) == [];
    hide *;
    if Level1(args[0]) != "" {
      NothingFollows();
      var b := ArgumentReadsBack(args[0], "", trims);
      assert ReadOptions(Level1All(args), trims) == [b];
    }
  }

  lemma NothingFollows()
    ensures EndsOption("")
  {
  }

  lemma MoreReadBack(args: seq<Argument>, trims: bool)
    requires WellKeyed(args) && |args| > 1
    requires ReadOptions(Level1All(args[1..]), trims) == args[1..] <==> Readable(args[1..], trims)
    ensures ReadOptions(Level1All(args), trims) == args <==> Readable(args, trims)
  {
    var rest := ":" + Level1All(args[1..]);
    FirstWritten(args);
    assert [args[0]] + args[1..] == args;
    hide *;
    ReadableFirst(args, trims);
    NothingWritten(args[0]);
    var b := ArgumentReadsBack(args[0], rest, trims);
    var others := ReadOptions(Level1All(args[1..]), trims);
    SameFirst(b, others, args[0], args[1..]);
  }

  lemma FirstWritten(args: seq<Argument>)
    requires WellKeyed(args) && |args| > 1
    ensures var rest := ":" + Level1All(args[1..]);
      && Level1All(args) == Level1(args[0]) + rest && rest[1..] == Level1All(args[1..])
      && rest != "" && Level1(args[0]) + rest != "" && EndsOption(rest) && WellKeyed([args[0]])
  {
    hide Level1, IsKey;
    assert [args[0]][0] == args[0];
    LevelOnePart(args);
    hide *;
    Prefixed(Level1(args[0]), Level1All(args[1..]));
  }

  lemma LevelOnePart(args: seq<Argument>)
    requires |args| > 1
    ensures Level1All(args) == Level1(args[0]) + ":" + Level1All(args[1..])
  {
    hide Level1;
  }

  lemma Prefixed(first: string, others: string)
    ensures first + ":" + others == first + (":" + others) && (":" + others)[1..] == others
    ensures first + (":" + others) != "" && ":" + others != "" && EndsOption(":" + others)
  {
  }

  lemma SameFirst<T>(x: T, xs: seq<T>, y: T, ys: seq<T>)
    ensures [x] + xs == [y] + ys <==> x == y && xs == ys
  {
    assert ([x] + xs)[0] == x && ([y] + ys)[0] == y && ([x] + xs)[1..] == xs && ([y] + ys)[1..] == ys;
  }

  // Through the graph's own level

  lemma {:induction false} Escape2Plain(s: string)
    requires forall i :: 0 <= i < |s| ==> !IsLevel2(s[i])
    ensures Escape2(s) == s
  {
    if s != "" {
      Escape2Plain(s[1..]);
    }
  }

  lemma ScanValue(v: string, rest: string, text: string, kept: nat) returns (kept': nat)
    requires Tight(text, kept)
    ensures Tight(text + Escape1(v), kept')
    ensures Scan(EscapeValue(v) + rest, FILTER_ENDS, text, kept) == Scan(rest, FILTER_ENDS, text + Escape1(v), kept')
  {
    if v == "" {
      var s := "''" + rest;
      assert s[1..][0] == '\'' && QuoteEnd(s[1..]) == 0;
      assert s[2..] == rest && s[1..1] == "" && text + "" == text;
      kept' := |text|;
    } else {
      kept' := ScanEscaped2(Escape1(v), rest, text, kept);
    }
  }

  lemma ScanPlain(s: string, rest: string, text: string, kept: nat) returns (kept': nat)
    requires Tight(text, kept) && forall i :: 0 <= i < |s| ==> !IsLevel2(s[i])
    ensures Tight(text + s, kept')
    ensures Scan(s + rest, FILTER_ENDS, text, kept) == Scan(rest, FILTER_ENDS, text + s, kept')
  {
    Escape2Plain(s);
    kept' := ScanEscaped2(s, rest, text, kept);
  }

  lemma ScanArgument(a: Argument, rest: string, text: string, kept: nat) returns (kept': nat)
    requires Tight(text, kept) && WellKeyed([a])
    ensures Tight(text + Level1(a), kept')
    ensures Scan(Written(a) + rest, FILTER_ENDS, text, kept) == Scan(rest, FILTER_ENDS, text + Level1(a), kept')
  {
    hide Scan, Escape1, Escape2, EscapeValue, IsBlank, IsLevel2, IsKeyChar;
    assert [a][0] == a;
    match a
    case Keyed(key, value) =>
      var named := key + "=";
      forall i | 0 <= i < |named| ensures !IsLevel2(named[i]) { KeyCharPlain(named[i]); }
      var k := ScanPlain(named, EscapeValue(value) + rest, text, kept);
      kept' := ScanValue(value, rest, text + named, k);
      assert named + (EscapeValue(value) + rest) == Written(a) + rest;
      assert text + named + Escape1(value) == text + Level1(a);
    case Positional(value) =>
      kept' := ScanValue(value, rest, text, kept);
  }

  lemma KeyCharPlain(c: char)
    requires IsKeyChar(c) || c == '='
    ensures !IsLevel2(c) && !IsBlank(c)
  {
  }

  lemma {:induction false} ScanArguments(args: seq<Argument>, rest: string, text: string, kept: nat) returns (kept': nat)
    requires Tight(text, kept) && WellKeyed(args)
    ensures Tight(text + Level1All(args), kept')
    ensures Scan(WrittenAll(args) + rest, FILTER_ENDS, text, kept)
         == Scan(rest, FILTER_ENDS, text + Level1All(args), kept')
    decreases |args|
  {
    hide Scan, Escape1, Escape2, EscapeValue, Level1, Written, IsBlank, IsKeyChar;
    if args == [] {
      kept' := kept;
      assert WrittenAll(args) + rest == rest && text + Level1All(args) == text;
    } else if |args| == 1 {
      kept' := ScanArgument(args[0], rest, text, kept);
    } else {
      var more := ":" + (WrittenAll(args[1..]) + rest);
      assert WrittenAll(args) + rest == Written(args[0]) + more;
      var k := ScanArgument(args[0], more, text, kept);
      k := ScanPlain(":", WrittenAll(args[1..]) + rest, text + Level1(args[0]), k);
      kept' := ScanArguments(args[1..], rest, text + Level1(args[0]) + ":", k);
      assert text + Level1(args[0]) + ":" + Level1All(args[1..]) == text + Level1All(args);
    }
  }

  lemma WrittenFirst(args: seq<Argument>)
    requires args != [] && WellKeyed(args)
    ensures WrittenAll(args) != "" && !IsBlank(WrittenAll(args)[0])
  {
    var a := args[0];
    ValueFirst(a.value);
    assert WrittenAll(args)[0] == Written(a)[0];
    if a.Keyed? {
      KeyCharPlain(a.key[0]);
      assert Written(a)[0] == a.key[0];
    }
  }

  lemma ValueFirst(v: string)
    ensures EscapeValue(v) != "" && !IsBlank(EscapeValue(v)[0])
  {
    if v != "" {
      Escape1First(v);
      var e := Escape1(v);
      assert Escape2(e)[0] == if IsLevel2(e[0]) then '\\' else e[0];
    }
  }

  predicate EndsFilter(rest: string) { rest == "" || rest[0] in FILTER_ENDS }

  /** The graph's reading of a filter's options leaves them escaped once. */
  lemma OptionsToken(args: seq<Argument>, rest: string)
    requires args != [] && WellKeyed(args) && EndsFilter(rest)
    ensures Token(WrittenAll(args) + rest, FILTER_ENDS, true) == (Level1All(args), rest)
  {
    hide *;
    WrittenFirst(args);
    NoBlankFirst(WrittenAll(args), rest);
    TightNothing();
    var kept := ScanArguments(args, rest, "", 0);
    ScanEnds(rest, "" + Level1All(args), kept);
    assert "" + Level1All(args) == Level1All(args);
    TightTrim(Level1All(args), kept);
    TokenIs(WrittenAll(args) + rest, FILTER_ENDS);
  }

  lemma TightNothing()
    ensures Tight("", 0)
  {
  }

  lemma NoBlankFirst(s: string, rest: string)
    requires s != "" && !IsBlank(s[0])
    ensures SkipBlanks(s + rest) == s + rest
  {
  }

  lemma ScanEnds(rest: string, text: string, kept: nat)
    requires EndsFilter(rest) && Tight(text, kept)
    ensures kept <= |text| && Scan(rest, FILTER_ENDS, text, kept) == Scanned(text, kept, rest)
  {
  }

  lemma TokenIs(s: string, terms: string)
    requires SkipBlanks(s) == s
    ensures var scanned := Scan(s, terms, "", 0); Token(s, terms, true) == (TrimFrom(scanned.text, scanned.kept), scanned.rest)
  {
  }
}
