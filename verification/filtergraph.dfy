/** A filtergraph's text, as rendered and as libavfilter parses it. */
module Filtergraph {
  import opened Wrappers
  import opened Escaping

  /** One filter of a graph as it stands in the text: the labels written in
      front of it, its name and options, and the labels written after it. */
  datatype Stage = Stage(ins: seq<string>, name: string, args: seq<Argument>, outs: seq<string>)

  /** A run of filters joined by commas: only its ends carry labels. */
  datatype Chain = Chain(ins: seq<string>, filters: seq<(string, seq<Argument>)>, outs: seq<string>)

  // Rendering

  predicate IsValueOnly(filter: string, key: string)
  {
    filter == "split" || filter == "asplit" || key == "expr"
  }

  /** A node's arguments as options: `expr` and a split's render value-only. */
  function Options(filter: string, args: seq<(string, string)>): (options: seq<Argument>)
    ensures |options| == |args|
  {
    seq(|args|, i requires 0 <= i < |args| =>
      if IsValueOnly(filter, args[i].0) then Positional(args[i].1) else Keyed(args[i].0, args[i].1))
  }

  function LabelsText(labels: seq<string>): string
  {
    if labels == [] then "" else "[" + labels[0] + "]" + LabelsText(labels[1..])
  }

  function FilterText(name: string, args: seq<Argument>): string
  {
    if args == [] then name else name + "=" + WrittenAll(args)
  }

  function FiltersText(filters: seq<(string, seq<Argument>)>): string
  {
    if filters == [] then ""
    else if |filters| == 1 then FilterText(filters[0].0, filters[0].1)
    else FilterText(filters[0].0, filters[0].1) + "," + FiltersText(filters[1..])
  }

  function ChainText(chain: Chain): string
  {
    LabelsText(chain.ins) + FiltersText(chain.filters) + LabelsText(chain.outs)
  }

  function GraphText(chains: seq<Chain>): string
  {
    if chains == [] then "" else if |chains| == 1 then ChainText(chains[0]) else ChainText(chains[0]) + ";" + GraphText(chains[1..])
  }

  // Reading

  function ReadLabels(s: string): (r: (seq<string>, string))
    ensures |r.1| <= |s|
    decreases |s|
  {
    var t := SkipBlanks(s);
    if t == "" || t[0] != '[' then ([], t)
    else
      var token := Token(t[1..], "]", true);
      if token.1 == "" then ([token.0], "")
      else
        var more := ReadLabels(token.1[1..]);
        ([token.0] + more.0, more.1)
  }

  const NAME_ENDS := "=,;["

  function ReadFilter(s: string, trims: bool): (r: (string, seq<Argument>, string))
    ensures |r.2| <= |s|
  {
    var name := Token(s, NAME_ENDS, true);
    if name.1 != "" && name.1[0] == '=' then
      var options := Token(name.1[1..], FILTER_ENDS, true);
      (name.0, ReadOptions(options.0, trims), options.1)
    else (name.0, [], name.1)
  }

  function ReadStage(s: string, trims: bool): (r: (Stage, string))
    ensures |r.1| <= |s|
  {
    var ins := ReadLabels(s);
    var filter := ReadFilter(ins.1, trims);
    var outs := ReadLabels(filter.2);
    (Stage(ins.0, filter.0, filter.1, outs.0), outs.1)
  }

  /** The chains of a graph: `,` goes on with a chain, `;` begins another. */
  function ReadGraph(s: string, trims: bool): (r: Option<seq<seq<Stage>>>)
    ensures r.Some? ==> |r.value| > 0 && |r.value[0]| > 0
    decreases |s|
  {
    var stage := ReadStage(s, trims);
    var rest := SkipBlanks(stage.1);
    if rest == "" then Some([[stage.0]])
    else if rest[0] != ',' && rest[0] != ';' then None
    else
      match ReadGraph(rest[1..], trims)
      case None => None
      case Some(chains) =>
        if rest[0] == ',' then Some([[stage.0] + chains[0]] + chains[1..]) else Some([[stage.0]] + chains)
  }

  // What is read back

  predicate IsLabel(name: string)
  {
    name != "" && forall i :: 0 <= i < |name| ==> IsLabelChar(name[i])
  }

  predicate IsLabelChar(c: char)
  {
    'a' <= c <= 'z' || 'A' <= c <= 'Z' || '0' <= c <= '9' || c == '_' || c == ':'
  }

  predicate AreLabels(labels: seq<string>)
  {
    forall i :: 0 <= i < |labels| ==> IsLabel(labels[i])
  }

  predicate IsStage(stage: Stage)
  {
    AreLabels(stage.ins) && AreLabels(stage.outs) && IsKey(stage.name) && WellKeyed(stage.args)
  }

  function StageText(stage: Stage): string
  {
    LabelsText(stage.ins) + (FilterText(stage.name, stage.args) + LabelsText(stage.outs))
  }

  /** A chain's filters, each with the labels beside it. */
  function Stages(chain: Chain): (stages: seq<Stage>)
    ensures |stages| == |chain.filters|
  {
    seq(|chain.filters|, i requires 0 <= i < |chain.filters| =>
      Stage(if i == 0 then chain.ins else [], chain.filters[i].0, chain.filters[i].1,
            if i == |chain.filters| - 1 then chain.outs else []))
  }

  predicate IsChain(chain: Chain)
  {
    && chain.filters != [] && AreLabels(chain.ins) && AreLabels(chain.outs)
    && forall i :: 0 <= i < |chain.filters| ==> IsKey(chain.filters[i].0) && WellKeyed(chain.filters[i].1)
  }

  function ReadBack(stage: Stage, trims: bool): Stage
  {
    stage.(args := ReadOptions(Level1All(stage.args), trims))
  }

  function AllReadBack(stages: seq<Stage>, trims: bool): (read: seq<Stage>)
    ensures |read| == |stages|
  {
    seq(|stages|, i requires 0 <= i < |stages| => ReadBack(stages[i], trims))
  }

  // Where one piece of text ends

  lemma Bracketed(name: string, labels: string, rest: string)
    ensures var s := "[" + name + "]" + labels + rest;
      && s != "" && s[0] == '['
      && s[1..] == name + ("]" + (labels + rest))
      && ("]" + (labels + rest))[1..] == labels + rest
  {
  }

  lemma Separated(a: string, c: char, b: string, rest: string)
    ensures a + [c] + b + rest == a + ([c] + (b + rest))
    ensures ([c] + (b + rest))[1..] == b + rest && ([c] + (b + rest))[0] == c
  {
  }

  lemma SkipNone(s: string)
    requires s == "" || !IsBlank(s[0])
    ensures SkipBlanks(s) == s
  {
  }

  // Tokens with nothing to escape

  predicate IsPlain(s: string, terms: string)
  {
    forall i :: 0 <= i < |s| ==> s[i] != '\\' && s[i] != '\'' && s[i] !in terms && !IsBlank(s[i])
  }

  lemma {:induction false} ScanOver(s: string, rest: string, terms: string, text: string, kept: nat)
    requires IsPlain(s, terms) && kept <= |text| && '\\' !in terms
    ensures Scan(s + rest, terms, text, kept) == Scan(rest, terms, text + s, kept)
    decreases |s|
  {
    hide Scan;
    if s == "" {
      assert s + rest == rest && text + s == text;
    } else {
      assert s + rest == [s[0]] + (s[1..] + rest);
      ScanOne(s[0], [s[0]], s[1..] + rest, terms, text, kept);
      ScanOver(s[1..], rest, terms, text + [s[0]], kept);
      Moved(text, s);
    }
  }

  lemma PlainToken(s: string, rest: string, terms: string)
    requires IsPlain(s, terms) && s != "" && '\\' !in terms && (rest == "" || rest[0] in terms)
    ensures Token(s + rest, terms, true) == (s, rest)
  {
    assert (s + rest)[0] == s[0];
    ScanOver(s, rest, terms, "", 0);
    assert "" + s == s;
    TightTrim(s, 0);
  }

  lemma LabelPlain(name: string)
    requires IsLabel(name)
    ensures IsPlain(name, "]") && name != ""
  {
  }

  lemma NamePlain(name: string)
    requires IsKey(name)
    ensures IsPlain(name, NAME_ENDS) && name != ""
  {
  }

  predicate EndsLabels(rest: string) { rest == "" || (rest[0] != '[' && !IsBlank(rest[0])) }

  lemma LabelsFirst(labels: seq<string>)
    ensures LabelsText(labels) == if labels == [] then "" else "[" + labels[0] + "]" + LabelsText(labels[1..])
  {
  }

  lemma {:induction false} LabelsReadBack(labels: seq<string>, rest: string)
    requires AreLabels(labels) && EndsLabels(rest)
    ensures ReadLabels(LabelsText(labels) + rest) == (labels, rest)
    decreases |labels|
  {
    LabelsFirst(labels);
    hide Token, SkipBlanks, IsLabel, LabelsText;
    if labels == [] {
      Joined("", rest, "");
      SkipNone(rest);
    } else {
      var more := LabelsText(labels[1..]) + rest;
      LabelPlain(labels[0]);
      Bracketed(labels[0], LabelsText(labels[1..]), rest);
      SkipNone(LabelsText(labels) + rest);
      PlainToken(labels[0], "]" + more, "]");
      LabelsReadBack(labels[1..], rest);
      assert labels == [labels[0]] + labels[1..];
    }
  }

  predicate EndsStage(rest: string) { rest == "" || rest[0] in ",;[" }

  lemma FilterReadsBack(name: string, args: seq<Argument>, rest: string, trims: bool)
    requires IsKey(name) && WellKeyed(args) && EndsStage(rest)
    ensures ReadFilter(FilterText(name, args) + rest, trims) == (name, ReadOptions(Level1All(args), trims), rest)
  {
    hide Token, ReadOptions, WrittenAll, Level1All, IsKey;
    NamePlain(name);
    if args == [] {
      PlainToken(name, rest, NAME_ENDS);
      NoOptions(trims);
    } else {
      var options := WrittenAll(args) + rest;
      Separated(name, '=', WrittenAll(args), rest);
      PlainToken(name, "=" + options, NAME_ENDS);
      OptionsToken(args, rest);
    }
  }

  lemma NoOptions(trims: bool)
    ensures ReadOptions(Level1All([]), trims) == []
  {
  }

  lemma NameFirst(name: string, args: seq<Argument>, rest: string)
    requires IsKey(name)
    ensures EndsLabels(FilterText(name, args) + rest)
  {
    assert (FilterText(name, args) + rest)[0] == name[0];
  }

  /** What may follow a filter and its labels. */
  predicate EndsFilters(rest: string) { rest == "" || rest[0] == ',' || rest[0] == ';' }

  lemma StageReadsBack(stage: Stage, rest: string, trims: bool)
    requires IsStage(stage) && EndsFilters(rest)
    ensures ReadStage(StageText(stage) + rest, trims) == (ReadBack(stage, trims), rest)
  {
    hide ReadLabels, ReadFilter, ReadOptions;
    var outs := LabelsText(stage.outs) + rest;
    var filter := FilterText(stage.name, stage.args) + outs;
    assert StageText(stage) + rest == LabelsText(stage.ins) + filter;
    NameFirst(stage.name, stage.args, outs);
    LabelsReadBack(stage.ins, filter);
    assert stage.outs == [] ==> outs == rest;
    assert stage.outs != [] ==> outs[0] == '[';
    FilterReadsBack(stage.name, stage.args, outs, trims);
    LabelsReadBack(stage.outs, rest);
  }

  // Chains

  function StagesText(stages: seq<Stage>): string
  {
    if stages == [] then "" else if |stages| == 1 then StageText(stages[0]) else StageText(stages[0]) + "," + StagesText(stages[1..])
  }

  /** A chain's text is its stages' joined by commas. */
  lemma {:induction false} ChainAsStages(chain: Chain)
    requires chain.filters != []
    ensures ChainText(chain) == StagesText(Stages(chain))
    decreases |chain.filters|
  {
    hide FilterText;
    var stages := Stages(chain);
    var first := chain.filters[0];
    if |chain.filters| == 1 {
      assert stages[0] == Stage(chain.ins, first.0, first.1, chain.outs);
      Joined(LabelsText(chain.ins), FiltersText(chain.filters), LabelsText(chain.outs));
    } else {
      var rest := Chain([], chain.filters[1..], chain.outs);
      ChainAsStages(rest);
      assert stages[1..] == Stages(rest);
      assert stages[0] == Stage(chain.ins, first.0, first.1, []);
      Regrouped(LabelsText(chain.ins), FilterText(first.0, first.1), FiltersText(chain.filters[1..]), LabelsText(chain.outs));
    }
  }

  lemma Regrouped(ins: string, first: string, others: string, outs: string)
    ensures ins + (first + "," + others) + outs == ins + (first + "") + "," + ("" + others + outs)
  {
    assert first + "" == first && "" + others == others;
    Joined(first, ",", others);
    Joined(ins, first, "," + others);
    Joined(ins + first, ",", others);
    Joined(ins + first + ",", others, outs);
  }

  lemma {:induction false} StagesReadBack(stages: seq<Stage>, rest: string, trims: bool)
    requires stages != [] && forall i :: 0 <= i < |stages| ==> IsStage(stages[i])
    requires rest != "" ==> rest[0] == ';'
    requires rest != "" ==> ReadGraph(rest[1..], trims).Some?
    ensures ReadGraph(StagesText(stages) + rest, trims)
         == Some([AllReadBack(stages, trims)] + (if rest == "" then [] else ReadGraph(rest[1..], trims).value))
    decreases |stages|
  {
    hide ReadStage, ReadBack, StageText, IsStage, SkipBlanks;
    var others := if rest == "" then [] else ReadGraph(rest[1..], trims).value;
    if |stages| == 1 {
      StageReadsBack(stages[0], rest, trims);
      SkipNone(rest);
      assert AllReadBack(stages, trims) == [ReadBack(stages[0], trims)];
      assert ReadStage(StagesText(stages) + rest, trims) == (ReadBack(stages[0], trims), rest);
      assert [AllReadBack(stages, trims)] + [] == [AllReadBack(stages, trims)];
    } else {
      var more := "," + (StagesText(stages[1..]) + rest);
      Separated(StageText(stages[0]), ',', StagesText(stages[1..]), rest);
      StageReadsBack(stages[0], more, trims);
      SkipNone(more);
      StagesReadBack(stages[1..], rest, trims);
      Opened(AllReadBack(stages[1..], trims), others);
      Prepended(stages, trims);
    }
  }

  lemma Opened(first: seq<Stage>, others: seq<seq<Stage>>)
    ensures ([first] + others)[0] == first && ([first] + others)[1..] == others
  {
  }

  lemma Prepended(stages: seq<Stage>, trims: bool)
    requires stages != []
    ensures AllReadBack(stages, trims) == [ReadBack(stages[0], trims)] + AllReadBack(stages[1..], trims)
  {
  }

  function AllStages(chains: seq<Chain>): (all: seq<seq<Stage>>)
    ensures |all| == |chains|
  {
    seq(|chains|, i requires 0 <= i < |chains| => Stages(chains[i]))
  }

  function AllChainsReadBack(chains: seq<Chain>, trims: bool): (all: seq<seq<Stage>>)
    ensures |all| == |chains|
  {
    seq(|chains|, i requires 0 <= i < |chains| => AllReadBack(Stages(chains[i]), trims))
  }

  lemma {:induction false} ChainsReadBack(chains: seq<Chain>, trims: bool)
    requires chains != [] && forall i :: 0 <= i < |chains| ==> IsChain(chains[i])
    ensures ReadGraph(GraphText(chains), trims) == Some(AllChainsReadBack(chains, trims))
    decreases |chains|
  {
    hide ReadGraph, AllReadBack, StagesText, ChainText, Stages;
    ChainStages(chains[0]);
    ChainAsStages(chains[0]);
    var stages := Stages(chains[0]);
    if |chains| == 1 {
      StagesReadBack(stages, "", trims);
      Joined(StagesText(stages), "", "");
      assert StagesText(stages) + "" == StagesText(stages);
      assert AllChainsReadBack(chains, trims) == [AllReadBack(stages, trims)] + [];
    } else {
      ChainsReadBack(chains[1..], trims);
      var rest := ";" + GraphText(chains[1..]);
      assert rest[1..] == GraphText(chains[1..]);
      StagesReadBack(stages, rest, trims);
      Joined(StagesText(stages), ";", GraphText(chains[1..]));
      assert AllChainsReadBack(chains, trims) == [AllReadBack(stages, trims)] + AllChainsReadBack(chains[1..], trims);
    }
  }

  lemma ChainStages(chain: Chain)
    requires IsChain(chain)
    ensures |Stages(chain)| > 0 && forall i :: 0 <= i < |Stages(chain)| ==> IsStage(Stages(chain)[i])
  {
  }

  /** One chain reads back exactly when each of its filters' options does. */
  lemma ChainReadsBack(chain: Chain, trims: bool)
    requires IsChain(chain)
    ensures AllReadBack(Stages(chain), trims) == Stages(chain)
       <==> forall j :: 0 <= j < |chain.filters| ==> Readable(chain.filters[j].1, trims)
  {
    hide ReadOptions, Readable, Level1All;
    var stages := Stages(chain);
    forall j | 0 <= j < |stages| ensures ReadBack(stages[j], trims) == stages[j] <==> Readable(chain.filters[j].1, trims) {
      assert IsKey(chain.filters[j].0) && WellKeyed(chain.filters[j].1);
      OptionsReadBack(chain.filters[j].1, trims);
    }
    if j :| 0 <= j < |stages| && !Readable(chain.filters[j].1, trims) {
      assert AllReadBack(stages, trims)[j] != stages[j];
    }
  }

  /** A rendered filtergraph reads back as its chains exactly when every
      filter's options do: each label where it was written, each filter with
      its name, and each value as it was before it was escaped. */
  lemma GraphReadsBack(chains: seq<Chain>, trims: bool)
    requires chains != [] && forall i :: 0 <= i < |chains| ==> IsChain(chains[i])
    ensures ReadGraph(GraphText(chains), trims) == Some(AllStages(chains))
       <==> forall i, j :: 0 <= i < |chains| && 0 <= j < |chains[i].filters| ==> Readable(chains[i].filters[j].1, trims)
  {
    hide ReadGraph, Readable, AllReadBack, Stages, IsChain;
    ChainsReadBack(chains, trims);
    var read := AllChainsReadBack(chains, trims);
    forall i | 0 <= i < |chains|
      ensures read[i] == AllStages(chains)[i]
         <==> forall j :: 0 <= j < |chains[i].filters| ==> Readable(chains[i].filters[j].1, trims)
    {
      ChainReadsBack(chains[i], trims);
    }
    if forall i, j :: 0 <= i < |chains| && 0 <= j < |chains[i].filters| ==> Readable(chains[i].filters[j].1, trims) {
      assert read == AllStages(chains);
    }
  }

  // The two ways it fails

  /** A blank at either end of a value does not survive: drawtext's `text` of
      one space reads back empty. */
  lemma BlankLost()
    ensures EscapeValue(" ") == "\\ "
    ensures ReadOptions(Level1All([Keyed("text", " ")]), true) != [Keyed("text", " ")]
  {
    BlankEscaped();
    TextBlank();
    hide ReadOptions, Level1All;
    OptionsReadBack([Keyed("text", " ")], true);
  }

  lemma BlankEscaped()
    ensures EscapeValue(" ") == "\\ "
  {
    assert Escape1(" ") == " " + Escape1("") == " ";
    assert Escape2(" ") == "\\ " + Escape2("") == "\\ ";
  }

  lemma TextBlank()
    ensures WellKeyed([Keyed("text", " ")]) && !Readable([Keyed("text", " ")], true)
  {
    var args := [Keyed("text", " ")];
    assert args[0].value == " " && !Unblanked(" ");
  }

  /** An empty value that names no key is no argument at all at the end. */
  lemma EmptyExpressionLost(trims: bool)
    ensures FilterText("setpts", [Positional("")]) == "setpts=''"
    ensures ReadOptions(Level1All([Positional("")]), trims) == []
  {
  }
}
