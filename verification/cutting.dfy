/**
A script cut into its statements, at every `;` outside a comment, a quoted run
and a dollar-quoted body.
*/
module Cutting {
  import opened Wrappers
  import Escaping

  // One token, by its length

  /** A `--` comment, its newline included. */
  function LineLength(s: string): (n: nat)
    ensures n <= |s| && (s != "" ==> n > 0)
  {
    if s == "" then 0 else if s[0] == '\n' then 1 else 1 + LineLength(s[1..])
  }

  /** What is left of a block comment `depth` deep; comments nest. */
  function CommentLength(s: string, depth: int): (n: nat)
    ensures n <= |s| && (s != "" ==> n > 0)
  {
    if s == "" then 0
    else if "/*" <= s then 2 + CommentLength(s[2..], depth + 1)
    else if "*/" <= s then if depth == 1 then 2 else 2 + CommentLength(s[2..], depth - 1)
    else 1 + CommentLength(s[1..], depth)
  }

  /** What is left of a quoted run; a doubled quote is one of its own. */
  function QuotedLength(s: string, quote: char): (n: nat)
    ensures n <= |s|
  {
    if s == "" then 0
    else if s[0] != quote then 1 + QuotedLength(s[1..], quote)
    else if |s| > 1 && s[1] == quote then 2 + QuotedLength(s[2..], quote)
    else 1
  }

  predicate IsNameStart(c: char)
  {
    'A' <= c <= 'Z' || 'a' <= c <= 'z' || c == '_'
  }

  function NameLength(s: string): (n: nat)
    ensures n <= |s|
    ensures n < |s| ==> !(IsNameStart(s[n]) || '0' <= s[n] <= '9')
    ensures forall i :: 0 <= i < n ==> IsNameStart(s[i]) || '0' <= s[i] <= '9'
  {
    if s != "" && (IsNameStart(s[0]) || '0' <= s[0] <= '9') then 1 + NameLength(s[1..]) else 0
  }

  /** The length of the dollar tag `s` begins with, 0 if it is none. */
  function TagLength(s: string): (n: nat)
    ensures n <= |s| && (n > 0 ==> n >= 2 && s[0] == '$' && s[n - 1] == '$')
  {
    if |s| < 2 || s[0] != '$' then 0
    else if s[1] == '$' then 2
    else if !IsNameStart(s[1]) then 0
    else
      var name := NameLength(s[1..]);
      if 1 + name < |s| && s[1 + name] == '$' then name + 2 else 0
  }

  predicate FoundAt(s: string, part: string, i: nat)
  {
    i + |part| <= |s| && s[i..i + |part|] == part
  }

  lemma Sliced(s: string, lo: nat, hi: nat)
    requires 1 <= lo <= hi <= |s|
    ensures s[lo..hi] == s[1..][lo - 1..hi - 1]
  {
    var a, b := s[lo..hi], s[1..][lo - 1..hi - 1];
    forall k | 0 <= k < hi - lo ensures a[k] == b[k] {
      assert a[k] == s[lo + k] && b[k] == s[1..][lo - 1 + k];
    }
  }

  function Find(s: string, part: string): (at: Option<nat>)
    ensures at.Some? ==> FoundAt(s, part, at.value) && forall i: nat :: i < at.value ==> !FoundAt(s, part, i)
    ensures at.None? ==> forall i: nat :: !FoundAt(s, part, i)
  {
    if FoundAt(s, part, 0) then Some(0)
    else if s == "" then None
    else
      var rest := Find(s[1..], part);
      assert forall i: nat :: i > 0 ==> (FoundAt(s, part, i) <==> FoundAt(s[1..], part, i - 1)) by {
        forall i: nat | i > 0 ensures FoundAt(s, part, i) <==> FoundAt(s[1..], part, i - 1) {
          if i + |part| <= |s| {
            Sliced(s, i, i + |part|);
          }
        }
      }
      if rest.None? then None else Some(1 + rest.value)
  }

  /** A dollar-quoted body, to the end of its closing tag. */
  function DollarLength(s: string): (n: nat)
    requires TagLength(s) > 0
    ensures TagLength(s) <= n <= |s|
  {
    var tag := TagLength(s);
    var close := Find(s[tag..], s[..tag]);
    if close.None? then |s| else tag + close.value + tag
  }

  predicate IsQuote(c: char)
  {
    c == '\'' || c == '"'
  }

  /** The scan always moves on. */
  function TokenLength(s: string): (n: nat)
    requires s != ""
    ensures 1 <= n <= |s|
  {
    if "--" <= s then LineLength(s)
    else if "/*" <= s then CommentLength(s, 0)
    else if IsQuote(s[0]) then 1 + QuotedLength(s[1..], s[0])
    else if TagLength(s) > 0 then DollarLength(s)
    else 1
  }

  /** Where the first cut is: just past the first `;` that is its own token. */
  function CutAt(s: string): (at: Option<nat>)
    ensures at.Some? ==> 1 <= at.value <= |s| && s[at.value - 1] == ';'
  {
    if s == "" then None
    else if s[0] == ';' then Some(1)
    else
      var n := TokenLength(s);
      var rest := CutAt(s[n..]);
      if rest.None? then None else Some(n + rest.value)
  }

  function Strip(s: string): string
  {
    if s != "" && Escaping.IsPythonSpace(s[0]) then Strip(s[1..]) else StripEnd(s)
  }

  function StripEnd(s: string): string
  {
    if s != "" && Escaping.IsPythonSpace(s[|s| - 1]) then StripEnd(s[..|s| - 1]) else s
  }

  /** The text between the cuts, unstripped, and what is past the last. */
  function Slices(s: string): (r: (seq<string>, string))
  {
    var cut := CutAt(s);
    if cut.None? then ([], s)
    else
      var rest := Slices(s[cut.value..]);
      ([s[..cut.value]] + rest.0, rest.1)
  }

  function StripAll(slices: seq<string>): (stripped: seq<string>)
    ensures |stripped| == |slices| && forall i :: 0 <= i < |slices| ==> stripped[i] == Strip(slices[i])
  {
    seq(|slices|, i requires 0 <= i < |slices| => Strip(slices[i]))
  }

  /** The statements: each slice stripped, and the tail where it is not blank. */
  function Blocks(s: string): seq<string>
  {
    var (slices, tail) := Slices(s);
    StripAll(slices) + (if Strip(tail) == "" then [] else [Strip(tail)])
  }

  // The scan by offsets

  lemma Suffix(text: string, at: nat, n: nat)
    requires at + n <= |text|
    ensures text[at..][n..] == text[at + n..]
  {
  }

  /** Past the block comment beginning at `at` (`_past_block_comment`). */
  method PastBlockComment(text: string, from: nat) returns (at: nat)
    requires from <= |text|
    ensures at == from + CommentLength(text[from..], 0)
  {
    at := from;
    var depth := 0;
    hide CommentLength;
    while at < |text|
      invariant from <= at <= |text|
      invariant at - from + CommentLength(text[at..], depth) == CommentLength(text[from..], 0)
    {
      CommentStep(text, at, depth);
      if "/*" <= text[at..] {
        depth := depth + 1;
        at := at + 2;
      } else if "*/" <= text[at..] {
        depth := depth - 1;
        at := at + 2;
        if depth == 0 {
          return at;
        }
      } else {
        at := at + 1;
      }
    }
    CommentDone(text[at..], depth);
  }

  lemma CommentDone(s: string, depth: int)
    requires s == ""
    ensures CommentLength(s, depth) == 0
  {
  }

  lemma CommentStep(text: string, at: nat, depth: int)
    requires at < |text|
    ensures "/*" <= text[at..] || "*/" <= text[at..] ==> at + 2 <= |text|
    ensures CommentLength(text[at..], depth) ==
      if "/*" <= text[at..] then 2 + CommentLength(text[at + 2..], depth + 1)
      else if "*/" <= text[at..] then if depth == 1 then 2 else 2 + CommentLength(text[at + 2..], depth - 1)
      else 1 + CommentLength(text[at + 1..], depth)
  {
    Suffix(text, at, 1);
    if at + 2 <= |text| {
      Suffix(text, at, 2);
    }
  }

  /** Past the quoted run beginning at `at` (`_past_quoted`). */
  method PastQuoted(text: string, from: nat) returns (at: nat)
    requires from < |text|
    ensures at == from + 1 + QuotedLength(text[from + 1..], text[from])
  {
    var quote := text[from];
    at := from + 1;
    while at < |text|
      invariant from < at <= |text|
      invariant at - from - 1 + QuotedLength(text[at..], quote) == QuotedLength(text[from + 1..], quote)
    {
      if text[at] != quote {
        Suffix(text, at, 1);
        at := at + 1;
      } else if at + 1 < |text| && text[at + 1] == quote {
        Suffix(text, at, 2);
        at := at + 2;
      } else {
        return at + 1;
      }
    }
  }

  method PastToken(text: string, at: nat) returns (past: nat)
    requires at < |text| && text[at] != ';'
    ensures past == at + TokenLength(text[at..])
  {
    var rest := text[at..];
    if "--" <= rest {
      past := at + LineLength(rest);
    } else if "/*" <= rest {
      past := PastBlockComment(text, at);
    } else if IsQuote(rest[0]) {
      past := PastQuoted(text, at);
      Suffix(text, at, 1);
    } else if TagLength(rest) > 0 {
      past := at + DollarLength(rest);
    } else {
      past := at + 1;
    }
  }

  /** The first cut past `start` is the first past `at`. */
  predicate NoneBetween(text: string, start: nat, at: nat)
  {
    start <= at <= |text| &&
    var cut := CutAt(text[at..]);
    CutAt(text[start..]) == if cut.None? then None else Some(at - start + cut.value)
  }

  /** The slices up to `start` are `blocks`, once stripped. */
  predicate CutSoFar(text: string, start: nat, blocks: seq<string>)
  {
    && start <= |text| && StripAll(Slices(text).0) == blocks + StripAll(Slices(text[start..]).0)
    && Slices(text).1 == Slices(text[start..]).1
  }

  /** The cut at every `;` the scan stops at, and text past the last one. */
  method StatementBlocks(text: string) returns (blocks: seq<string>)
    ensures blocks == Blocks(text)
  {
    blocks := [];
    var start, at := 0, 0;
    AtFirst(text);
    hide *;
    while at < |text|
      invariant start <= at <= |text| && NoneBetween(text, start, at) && CutSoFar(text, start, blocks)
    {
      if text[at] == ';' {
        CutHere(text, start, at, blocks);
        blocks := blocks + [Strip(text[start..at + 1])];
        at := at + 1;
        start := at;
      } else {
        var past := PastToken(text, at);
        CutLater(text, start, at);
        at := past;
      }
    }
    AtLast(text, start, blocks);
    if Strip(text[start..]) != "" {
      blocks := blocks + [Strip(text[start..])];
    }
  }

  lemma AtFirst(text: string)
    ensures NoneBetween(text, 0, 0) && CutSoFar(text, 0, [])
  {
    hide CutAt, Slices;
    assert text[0..] == text;
    assert [] + StripAll(Slices(text).0) == StripAll(Slices(text).0);
  }

  lemma CutLater(text: string, start: nat, at: nat)
    requires at < |text| && NoneBetween(text, start, at) && text[at] != ';'
    ensures text[at..] != "" && at + TokenLength(text[at..]) <= |text|
    ensures NoneBetween(text, start, at + TokenLength(text[at..]))
  {
    hide TokenLength;
    Suffix(text, at, TokenLength(text[at..]));
  }

  lemma CutHere(text: string, start: nat, at: nat, blocks: seq<string>)
    requires start <= at < |text| && NoneBetween(text, start, at) && text[at] == ';' && CutSoFar(text, start, blocks)
    ensures CutSoFar(text, at + 1, blocks + [Strip(text[start..at + 1])]) && NoneBetween(text, at + 1, at + 1)
  {
    hide *;
    var slice, rest := text[start..at + 1], Slices(text[at + 1..]).0;
    CutAtHere(text, start, at);
    SliceHere(text, start, at);
    Regrouped(blocks, Strip(slice), StripAll(rest));
    FirstStripped(slice, rest);
    StillCutSoFar(text, start, at + 1, blocks, blocks + [Strip(slice)]);
  }

  lemma CutAtHere(text: string, start: nat, at: nat)
    requires at < |text| && NoneBetween(text, start, at) && text[at] == ';'
    ensures CutAt(text[start..]) == Some(at - start + 1)
  {
    CutFirst(text[at..]);
    hide CutAt;
  }

  lemma CutFirst(s: string)
    requires s != "" && s[0] == ';'
    ensures CutAt(s) == Some(1)
  {
  }

  lemma StillCutSoFar(text: string, start: nat, next: nat, blocks: seq<string>, blocks': seq<string>)
    requires CutSoFar(text, start, blocks) && next <= |text| && Slices(text[start..]).1 == Slices(text[next..]).1
    requires blocks + StripAll(Slices(text[start..]).0) == blocks' + StripAll(Slices(text[next..]).0)
    ensures CutSoFar(text, next, blocks') && NoneBetween(text, next, next)
  {
    hide Slices, CutAt;
  }

  lemma Regrouped(blocks: seq<string>, block: string, rest: seq<string>)
    ensures blocks + ([block] + rest) == blocks + [block] + rest
  {
  }

  lemma SliceHere(text: string, start: nat, at: nat)
    requires start <= at < |text| && CutAt(text[start..]) == Some(at - start + 1)
    ensures Slices(text[start..]).0 == [text[start..at + 1]] + Slices(text[at + 1..]).0
    ensures Slices(text[start..]).1 == Slices(text[at + 1..]).1
  {
    hide CutAt;
    Suffix(text, start, at + 1 - start);
    assert text[start..][..at + 1 - start] == text[start..at + 1];
  }

  lemma FirstStripped(first: string, rest: seq<string>)
    ensures StripAll([first] + rest) == [Strip(first)] + StripAll(rest)
  {
    hide Strip;
  }

  lemma AtLast(text: string, start: nat, blocks: seq<string>)
    requires NoneBetween(text, start, |text|) && CutSoFar(text, start, blocks)
    ensures Blocks(text) == if Strip(text[start..]) == "" then blocks else blocks + [Strip(text[start..])]
  {
    assert CutAt(text[|text|..]).None?;
    hide CutAt, Strip;
    assert Slices(text[start..]) == ([], text[start..]) && StripAll([]) == [];
    assert blocks + [] == blocks;
  }

  // What surrounds a statement does not change how it is cut

  /** One statement, its only cut at its very end. */
  predicate IsStatement(s: string)
  {
    CutAt(s) == Some(|s|)
  }

  predicate EndsInCut(s: string)
  {
    s != "" && s[|s| - 1] == ';'
  }

  /** A piece read in `s` or in what `s` begins, short of the last `;`. */
  predicate Within(n: nat, n': nat, s: string)
  {
    n < |s| || n' < |s| ==> n == n'
  }

  lemma RestEnds(s: string, k: nat)
    requires EndsInCut(s) && k < |s|
    ensures EndsInCut(s[k..])
  {
  }

  lemma {:induction false} LineSame(s: string, rest: string)
    requires EndsInCut(s)
    ensures Within(LineLength(s), LineLength(s + rest), s)
  {
    assert (s + rest)[0] == s[0];
    if |s| > 1 && s[0] != '\n' {
      LineSame(s[1..], rest);
      assert (s + rest)[1..] == s[1..] + rest;
    }
  }

  lemma CommentIs(s: string, depth: int)
    requires s != ""
    ensures |s| == 1 ==> CommentLength(s, depth) == 1
    ensures |s| > 1 && s[0] == '/' && s[1] == '*' ==> CommentLength(s, depth) == 2 + CommentLength(s[2..], depth + 1)
    ensures |s| > 1 && s[0] == '*' && s[1] == '/' ==>
      CommentLength(s, depth) == if depth == 1 then 2 else 2 + CommentLength(s[2..], depth - 1)
    ensures |s| > 1 && !(s[0] == '/' && s[1] == '*') && !(s[0] == '*' && s[1] == '/') ==>
      CommentLength(s, depth) == 1 + CommentLength(s[1..], depth)
  {
  }

  lemma Shifted(s: string, rest: string)
    requires s != ""
    ensures (s + rest)[0] == s[0] && (s + rest)[1..] == s[1..] + rest
    ensures |s| > 1 ==> (s + rest)[1] == s[1] && (s + rest)[2..] == s[2..] + rest
  {
  }

  lemma {:induction false} CommentSame(s: string, rest: string, depth: int)
    requires EndsInCut(s)
    ensures Within(CommentLength(s, depth), CommentLength(s + rest, depth), s)
  {
    hide CommentLength;
    Shifted(s, rest);
    CommentIs(s, depth);
    CommentIs(s + rest, depth);
    if |s| > 1 {
      CommentSame(s[1..], rest, depth);
    }
    if |s| > 2 {
      CommentSame(s[2..], rest, depth + 1);
      CommentSame(s[2..], rest, depth - 1);
    }
  }

  lemma {:induction false} QuotedSame(s: string, rest: string, quote: char)
    requires EndsInCut(s) && IsQuote(quote)
    ensures Within(QuotedLength(s, quote), QuotedLength(s + rest, quote), s)
  {
    var all := s + rest;
    assert all[0] == s[0];
    if |s| > 1 {
      assert all[1] == s[1];
      assert all[1..] == s[1..] + rest;
      QuotedSame(s[1..], rest, quote);
      if |s| > 2 {
        assert all[2..] == s[2..] + rest;
        QuotedSame(s[2..], rest, quote);
      }
    }
  }

  lemma {:induction false} NameSame(s: string, rest: string)
    requires EndsInCut(s)
    ensures NameLength(s + rest) == NameLength(s) < |s|
  {
    assert (s + rest)[0] == s[0];
    if |s| > 1 {
      NameSame(s[1..], rest);
      assert (s + rest)[1..] == s[1..] + rest;
    }
  }

  lemma TagSame(s: string, rest: string)
    requires EndsInCut(s)
    ensures TagLength(s + rest) == TagLength(s) < |s|
  {
    var all := s + rest;
    assert all[0] == s[0];
    if |s| > 1 {
      assert all[1] == s[1];
      NameSame(s[1..], rest);
      assert all[1..] == s[1..] + rest;
    }
  }

  lemma FoundSame(s: string, rest: string, part: string, i: nat)
    requires i + |part| <= |s|
    ensures FoundAt(s + rest, part, i) <==> FoundAt(s, part, i)
  {
    assert (s + rest)[i..i + |part|] == s[i..i + |part|];
  }

  lemma DollarSame(s: string, rest: string)
    requires EndsInCut(s) && TagLength(s) > 0 && TagLength(s + rest) == TagLength(s) < |s|
    ensures Within(DollarLength(s), DollarLength(s + rest), s)
  {
    var tag := TagLength(s);
    var part, body := s[..tag], s[tag..];
    assert (s + rest)[..tag] == part && (s + rest)[tag..] == body + rest;
    hide TagLength, FoundAt, Find;
    var here, there := Find(body, part), Find(body + rest, part);
    if here.Some? {
      FoundWithin(body, part, here.value);
      forall i: nat | i <= here.value ensures FoundAt(body + rest, part, i) <==> FoundAt(body, part, i) {
        FoundSame(body, rest, part, i);
      }
    } else if there.Some? && there.value + |part| <= |body| {
      FoundSame(body, rest, part, there.value);
    }
    if here.Some? && there.Some? {
      assert there.value <= here.value;
    }
  }

  lemma FoundWithin(s: string, part: string, i: nat)
    requires FoundAt(s, part, i)
    ensures i + |part| <= |s|
  {
  }

  /** A token that ends before a statement does ends there in any script. */
  lemma TokenSame(s: string, rest: string)
    requires EndsInCut(s) && s[0] != ';'
    ensures Within(TokenLength(s), TokenLength(s + rest), s)
  {
    var all := s + rest;
    assert all[0] == s[0] && all[1] == s[1] && all[1..] == s[1..] + rest;
    LineSame(s, rest);
    CommentSame(s, rest, 0);
    TagSame(s, rest);
    if IsQuote(s[0]) {
      QuotedSame(s[1..], rest, s[0]);
    }
    if TagLength(s) > 0 {
      DollarSame(s, rest);
    }
    assert "--" <= all <==> "--" <= s;
    assert "/*" <= all <==> "/*" <= s;
    hide LineLength, CommentLength, QuotedLength, TagLength, DollarLength;
  }

  /** A first cut no later than a statement's end is its own cut. */
  lemma {:induction false} CutSame(s: string, rest: string)
    requires EndsInCut(s)
    ensures CutAt(s) == Some(|s|) <==> CutAt(s + rest) == Some(|s|)
  {
    hide TokenLength;
    var all := s + rest;
    assert all[0] == s[0];
    if s[0] == ';' {
    } else {
      TokenSame(s, rest);
      var n, n' := TokenLength(s), TokenLength(all);
      if n < |s| || n' < |s| {
        RestEnds(s, n);
        CutSame(s[n..], rest);
        assert all[n..] == s[n..] + rest;
      } else {
        assert s[n..] == "";
      }
    }
  }

  // What no `;` ends a statement in

  lemma {:induction false} RunLength(body: string, quote: char, rest: string)
    requires quote !in body && (rest == "" || rest[0] != quote)
    ensures QuotedLength(body + [quote] + rest, quote) == |body| + 1
  {
    var s := body + [quote] + rest;
    if body == "" {
      assert s == [quote] + rest;
    } else {
      RunLength(body[1..], quote, rest);
      assert s[0] == body[0] && body[0] in body && s[1..] == body[1..] + [quote] + rest;
    }
  }

  /** A token, and the `;` after it, is a statement. */
  lemma OneToken(s: string)
    requires |s| > 1 && s[|s| - 1] == ';' && s[0] != ';' && TokenLength(s) == |s| - 1
    ensures IsStatement(s)
  {
    assert s[TokenLength(s)..] == ";";
    CutFirst(";");
    hide TokenLength;
  }

  /** A run in either quote, whatever it holds but that quote. */
  lemma QuotedHolds(body: string, quote: char)
    requires (quote == '\'' || quote == '"') && quote !in body
    ensures IsStatement([quote] + body + [quote] + ";")
  {
    var s := [quote] + body + [quote] + ";";
    RunLength(body, quote, ";");
    assert s[1..] == body + [quote] + ";" && s[0] == quote;
    NoCommentHere(s);
    OneToken(s);
  }

  lemma NoCommentHere(s: string)
    requires s != ""
    ensures s[0] != '-' ==> !("--" <= s)
    ensures s[0] != '/' ==> !("/*" <= s)
  {
  }

  lemma {:induction false} LineLengthIs(body: string, rest: string)
    requires '\n' !in body
    ensures LineLength(body + "\n" + rest) == |body| + 1
  {
    var s := body + "\n" + rest;
    if body == "" {
      assert s == "\n" + rest;
    } else {
      LineLengthIs(body[1..], rest);
      assert s[0] == body[0] && body[0] in body && s[1..] == body[1..] + "\n" + rest;
    }
  }

  /** A comment to its line's end. */
  lemma LineHolds(body: string)
    requires '\n' !in body
    ensures IsStatement("--" + body + "\n" + ";")
  {
    var s := "--" + body + "\n" + ";";
    LineLengthIs("--" + body, ";");
    assert s == ("--" + body) + "\n" + ";" && "--" <= s;
    OneToken(s);
  }

  /** Comment text that neither opens nor closes one. */
  predicate Plain(body: string)
  {
    '*' !in body && '/' !in body
  }

  lemma {:induction false} PlainSkipped(body: string, rest: string, depth: int)
    requires Plain(body) && rest != "" && (rest[0] == '/' || rest[0] == '*')
    ensures CommentLength(body + rest, depth) == |body| + CommentLength(rest, depth)
  {
    if body == "" {
      assert body + rest == rest;
    } else {
      var s := body + rest;
      assert body[0] in body && s[0] == body[0] && s[1..] == body[1..] + rest;
      PlainSkipped(body[1..], rest, depth);
      CommentIs(s, depth);
      hide CommentLength;
    }
  }

  lemma Opens(rest: string, depth: int)
    ensures CommentLength("/*" + rest, depth) == 2 + CommentLength(rest, depth + 1)
  {
    assert ("/*" + rest)[2..] == rest;
  }

  lemma Closes(rest: string, depth: int)
    ensures CommentLength("*/" + rest, depth) == if depth == 1 then 2 else 2 + CommentLength(rest, depth - 1)
  {
    var s := "*/" + rest;
    assert s[2..] == rest && s[0] == '*';
  }

  /** A comment inside another is passed over whole. */
  lemma InnerPassed(body: string, rest: string, depth: nat)
    requires Plain(body) && depth > 0
    ensures CommentLength("/*" + (body + ("*/" + rest)), depth) == |body| + 4 + CommentLength(rest, depth)
  {
    hide *;
    Opens(body + ("*/" + rest), depth);
    PlainSkipped(body, "*/" + rest, depth + 1);
    Closes(rest, depth + 1);
  }

  lemma Nested(a: string, b: string, c: string, rest: string)
    requires Plain(a) && Plain(b) && Plain(c)
    ensures CommentLength("/*" + (a + ("/*" + (b + ("*/" + (c + ("*/" + rest)))))), 0) == |a| + |b| + |c| + 8
  {
    hide *;
    var inner := "/*" + (b + ("*/" + (c + ("*/" + rest))));
    Opens(a + inner, 0);
    PlainSkipped(a, inner, 1);
    InnerPassed(b, c + ("*/" + rest), 1);
    PlainSkipped(c, "*/" + rest, 1);
    Closes(rest, 1);
  }

  lemma Grouped(a: string, b: string, c: string, rest: string)
    ensures "/*" + a + "/*" + b + "*/" + c + "*/" + rest == "/*" + (a + ("/*" + (b + ("*/" + (c + ("*/" + rest))))))
  {
  }

  /** A comment in a comment: the outer goes on past the inner's end. */
  lemma CommentHolds(a: string, b: string, c: string)
    requires Plain(a) && Plain(b) && Plain(c)
    ensures IsStatement("/*" + a + "/*" + b + "*/" + c + "*/" + ";")
  {
    hide CommentLength, Plain;
    var s := "/*" + a + "/*" + b + "*/" + c + "*/" + ";";
    Grouped(a, b, c, ";");
    Nested(a, b, c, ";");
    NoCommentHere(s);
    assert s[0] == '/' && "/*" <= s;
    OneToken(s);
  }

  /** A dollar tag: nothing between its dollars, or a name. */
  predicate IsTag(tag: string)
  {
    && |tag| >= 2 && tag[0] == '$' && tag[|tag| - 1] == '$'
    && (|tag| > 2 ==> IsNameStart(tag[1]))
    && forall i :: 1 <= i < |tag| - 1 ==> IsNameStart(tag[i]) || '0' <= tag[i] <= '9'
  }

  lemma {:induction false} NameLengthIs(name: string, rest: string)
    requires forall i :: 0 <= i < |name| ==> IsNameStart(name[i]) || '0' <= name[i] <= '9'
    requires rest != "" && rest[0] == '$'
    ensures NameLength(name + rest) == |name|
  {
    var s := name + rest;
    if name == "" {
      assert s == rest;
    } else {
      assert s[0] == name[0] && s[1..] == name[1..] + rest;
      NameLengthIs(name[1..], rest);
    }
  }

  lemma TagLengthIs(tag: string, rest: string)
    requires IsTag(tag)
    ensures TagLength(tag + rest) == |tag|
  {
    var s := tag + rest;
    assert s[0] == '$' && s[1] == tag[1];
    if |tag| > 2 {
      var name := tag[1..|tag| - 1];
      assert s[1..] == name + ("$" + rest);
      NameLengthIs(name, "$" + rest);
      assert s[|tag| - 1] == '$';
    }
  }

  /** The body does not hold its own tag. */
  ghost predicate Untagged(body: string, tag: string)
  {
    forall i: nat :: i < |body| ==> !FoundAt(body + tag, tag, i)
  }

  lemma FindsTag(body: string, tag: string, rest: string)
    requires IsTag(tag) && Untagged(body, tag)
    ensures Find(body + tag + rest, tag) == Some(|body|)
  {
    var s := body + tag;
    hide Find;
    var found := Find(s + rest, tag);
    assert (s + rest)[|body|..|body| + |tag|] == tag;
    assert FoundAt(s + rest, tag, |body|);
    forall i: nat | i < |body| ensures !FoundAt(s + rest, tag, i) {
      FoundSame(s, rest, tag, i);
    }
  }

  /** A dollar-quoted body under any tag, whatever it holds but that tag. */
  lemma DollarHolds(tag: string, body: string)
    requires IsTag(tag) && Untagged(body, tag)
    ensures IsStatement(tag + body + tag + ";")
  {
    var s := tag + body + tag + ";";
    DollarLengthIs(tag, body, ";");
    assert s[0] == tag[0] == '$';
    hide TagLength, DollarLength, Untagged;
    NoCommentHere(s);
    OneToken(s);
  }

  lemma DollarLengthIs(tag: string, body: string, rest: string)
    requires IsTag(tag) && Untagged(body, tag)
    ensures TagLength(tag + body + tag + rest) > 0
    ensures DollarLength(tag + body + tag + rest) == |tag| + |body| + |tag|
  {
    var s := tag + body + tag + rest;
    assert s == tag + (body + tag + rest);
    TagLengthIs(tag, body + tag + rest);
    FindsTag(body, tag, rest);
    assert s[|tag|..] == body + tag + rest && s[..|tag|] == tag;
    hide TagLength, Find, NameLength, Untagged;
  }

  // Cutting undoes joining

  function Joined(statements: seq<string>): string
  {
    if statements == [] then "" else statements[0] + Joined(statements[1..])
  }

  lemma {:induction false} CutsApart(statements: seq<string>, tail: string)
    requires forall i :: 0 <= i < |statements| ==> IsStatement(statements[i])
    requires CutAt(tail).None?
    ensures Slices(Joined(statements) + tail) == (statements, tail)
  {
    hide CutAt, Joined, Slices;
    JoinedIs(statements);
    if statements == [] {
      assert "" + tail == tail;
      SlicesIs(tail, 0);
    } else {
      var s, rest := statements[0], Joined(statements[1..]) + tail;
      assert IsStatement(s);
      EndsHere(s);
      CutSame(s, rest);
      CutsApart(statements[1..], tail);
      Moved(s, Joined(statements[1..]), tail);
      SlicesIs(s + rest, |s|);
      assert [s] + statements[1..] == statements;
    }
  }

  lemma EndsHere(s: string)
    requires IsStatement(s)
    ensures EndsInCut(s) && CutAt(s) == Some(|s|)
  {
  }

  lemma JoinedIs(statements: seq<string>)
    ensures Joined(statements) == if statements == [] then "" else statements[0] + Joined(statements[1..])
  {
  }

  lemma Moved(s: string, more: string, tail: string)
    ensures s + more + tail == s + (more + tail)
    ensures (s + (more + tail))[..|s|] == s && (s + (more + tail))[|s|..] == more + tail
  {
  }

  lemma SlicesIs(s: string, cut: nat)
    requires cut <= |s|
    ensures CutAt(s).None? ==> Slices(s) == ([], s)
    ensures CutAt(s) == Some(cut) ==> Slices(s) == ([s[..cut]] + Slices(s[cut..]).0, Slices(s[cut..]).1)
  {
    hide CutAt;
  }

  /** Statements joined are cut apart again, each stripped. */
  lemma JoinThenCut(statements: seq<string>)
    requires forall i :: 0 <= i < |statements| ==> IsStatement(statements[i])
    ensures Blocks(Joined(statements)) == StripAll(statements)
  {
    CutsApart(statements, "");
    assert Joined(statements) + "" == Joined(statements);
    assert StripAll(statements) + [] == StripAll(statements);
  }

  /** Any text's slices and tail rebuild it, and each slice is a statement. */
  lemma {:induction false} CutThenJoin(text: string)
    ensures var (slices, tail) := Slices(text);
      && Joined(slices) + tail == text && CutAt(tail).None?
      && (forall i :: 0 <= i < |slices| ==> IsStatement(slices[i]))
    decreases |text|
  {
    hide CutAt, Slices, Joined;
    var cut := CutAt(text);
    if cut.Some? {
      var s, rest := text[..cut.value], text[cut.value..];
      assert s + rest == text;
      CutSame(s, rest);
      CutThenJoin(rest);
      SlicesIs(text, cut.value);
      FirstJoined(s, Slices(rest).0, Slices(rest).1);
    } else {
      SlicesIs(text, 0);
      JoinedIs([]);
      assert "" + text == text;
    }
  }

  lemma FirstJoined(s: string, slices: seq<string>, tail: string)
    ensures Joined([s] + slices) + tail == s + (Joined(slices) + tail)
  {
    JoinedIs([s] + slices);
    hide Joined;
    assert ([s] + slices)[1..] == slices;
    Moved(s, Joined(slices), tail);
  }
}
