/** The compiler from the text of a program to the blocks of its procedures. */
module Driver {
  import opened Options
  import opened Symbols
  import opened Grammar
  import opened Earley
  import opened Charts
  import opened Wlp4Grammar
  import opened FinalChart
  import opened Tokens
  import opened Lexing
  import opened Ast
  import opened Types
  import opened Machine
  import opened Semantics
  import opened Lowering
  import opened Procedures
  import opened Simulation
  import opened Correctness
  import opened Checking
  import opened Yields
  import opened Reading
  import opened Passes
  import opened Items
  import opened Programs
  import opened Sentences
  import Trees
  import opened Texts
  import opened Printing
  import opened ProgramReadBack
  import opened ProgramVersions
  import opened ProgramAnswers
  import opened Refusals
  import opened Versions
  import opened ProgramLists
  import opened ReadNames
  import opened ExprLists
  import opened Compiler
  import Tokeniser
  import Recogniser
  import Parser

  /** Why a text is not compiled. */
  datatype Problem =
    | Untokenisable(error: LexError)
    | Unrecognised
    | Unparsable(found: ParseError)
    | Incomplete
    | Unvalued

  datatype Attempt<+T> = Success(value: T) | Failure(reason: Problem) {
    predicate IsFailure() {
      Failure?
    }

    function PropagateFailure<U>(): Attempt<U>
      requires Failure?
    {
      Failure(reason)
    }

    function Extract(): T
      requires Success?
    {
      value
    }
  }

  function Kinds(tokens: seq<Token>): Form {
    seq(|tokens|, i requires 0 <= i < |tokens| => tokens[i].kind)
  }

  /** The tokens are those of a program: procedures in source order, wain last. */
  ghost predicate IsSourceOf(tokens: seq<Token>, ps: seq<Procedure>) {
    && Kinds(tokens) == ProgramYield(ps)
    && ProgramSpelled(tokens, ps)
    && EndsInWain(ps)
    && AreShaped(ps)
  }

  /** The same, with calls first in all operands. */
  ghost predicate IsTextOf(tokens: seq<Token>, ps: seq<Procedure>) {
    IsSourceOf(tokens, ps) && IsReadable(ps)
  }

  /** The program is well-formed. */
  ghost predicate IsValid(tokens: seq<Token>, ps: seq<Procedure>) {
    IsProgram(ProgramItems(ps), tokens, ps)
  }

  // ----- from tokens to procedures -----

  lemma KindsAreTerminals(s: string)
    requires Lex(s).Lexed?
    ensures AllTerminals(Kinds(Lex(s).tokens))
  {
    hide Lex, IsToken, IsTerminal;
    LexedAreTokens(s);
    forall i | 0 <= i < |Lex(s).tokens|
      ensures IsTerminal(Lex(s).tokens[i].kind)
    {
      TokenIsTerminal(Lex(s).tokens[i]);
    }
  }

  lemma TokenIsTerminal(t: Token)
    requires IsToken(t)
    ensures IsTerminal(t.kind)
  {
  }

  lemma {:induction false} KeptAreInTable(items: seq<Elem>, next: seq<Elem>)
    ensures IsChart(Kept(CFG(), items, next))
  {
    if items != [] {
      KeptAreInTable(items[..|items| - 1], next);
    }
  }

  lemma {:induction false} KeptBelowAreInTable(c: Chart, k: nat)
    requires k < |c|
    ensures IsChart(KeptBelow(CFG(), c, k))
  {
    hide CFG, Kept;
    if k > 0 {
      KeptBelowAreInTable(c, k - 1);
      KeptAreInTable(c[k - 1], c[k]);
    }
  }

  lemma FinalIsChart(c: Chart)
    ensures IsChart(Final(CFG(), c, |c|))
  {
    hide CFG, Kept, KeptBelow;
    if c != [] {
      KeptBelowAreInTable(c, |c| - 1);
      KeptAreInTable(c[|c| - 1], []);
    }
  }

  /** What the recogniser hands on for the tokens of a program: if it is accepted, every procedure that is built has the
      declarations of its source and is right in their types. Where calls come first, it is given back if it is without
      fault, and its first fault is found if not. */
  lemma TextIsRead(tokens: seq<Token>, c: Chart, ps: seq<Procedure>)
    requires AllTerminals(Kinds(tokens)) && IsFilled(CFG(), Kinds(tokens), c) && IsSourceOf(tokens, ps)
    ensures Final(CFG(), c, |c|) == ProgramItems(ps) && IsChart(ProgramItems(ps))
    ensures IsParsedAs(Parse(ProgramItems(ps), tokens), tokens, ps)
  {
    hide CFG, Final, ProgramItems, ProgramSpelled, ProgramYield, IsReadable, IsFilled, Parse, AllBuilt, IsProgram,
         AreShaped, IsMadeOfAll, ProgramFaults;
    FinalChartIsItems(c, tokens, ps);
    AcceptedIsRight(ProgramItems(ps), tokens, ps);
    if IsReadable(ps) {
      ProgramIsAnswered(ProgramItems(ps), tokens, ps);
    }
  }

  /** What comes out of the parser for a program. */
  ghost predicate IsParsedAs(r: Reading.Result<seq<Draft>>, tokens: seq<Token>, ps: seq<Procedure>) {
    && (r.Ok? ==> IsMadeOfAll(ProgramItems(ps), tokens, ps, r.value))
    && (IsReadable(ps) ==> r == Answer(FaultsOf(tokens, ps), AllBuilt(ps)) && (r.Ok? <==> IsValid(tokens, ps)))
  }

  /** The faults of a program, in the order in which they are looked for. */
  ghost function FaultsOf(tokens: seq<Token>, ps: seq<Procedure>): seq<ParseError> {
    ProgramFaults(ProgramItems(ps), tokens, ps)
  }

  /** The same for the two stages before code generation; a program is always recognised. */
  ghost predicate IsReadAs(r: Attempt<seq<Draft>>, tokens: seq<Token>, ps: seq<Procedure>) {
    match r
    case Success(drafts) => IsParsedAs(Ok(drafts), tokens, ps)
    case Failure(reason) => reason.Unparsable? && IsParsedAs(Err(reason.found), tokens, ps)
  }

  /** Runs the recogniser: the final chart, if there is one, and the chart it is made from. */
  method RecogniseTokens(tokens: seq<Token>) returns (final: Option<seq<Elem>>, ghost c: Chart)
    requires AllTerminals(Kinds(tokens))
    ensures final.None? <==> !Viable(CFG(), Kinds(tokens))
    ensures final.Some? ==> IsFilled(CFG(), Kinds(tokens), c) && final.value == Final(CFG(), c, |c|)
    ensures final.Some? ==> IsChart(final.value)
  {
    hide Final, IsFilled, CFG, Viable, AllTerminals, Kinds;
    Wlp4IsAdmissible();
    var recogniser := new Recogniser.Recogniser(CFG(), Kinds(tokens));
    var outcome := recogniser.Recognise();
    c := recogniser.chart;
    FinalIsChart(c);
    final := if outcome == Recogniser.Accepted then Some(recogniser.finalChart) else None;
  }

  /** Runs the parser. */
  method ParseChart(chart: seq<Elem>, tokens: seq<Token>) returns (r: Attempt<seq<Draft>>)
    requires IsChart(chart)
    ensures match Parse(chart, tokens)
            case Ok(drafts) => r == Success(drafts)
            case Err(error) => r == Failure(Unparsable(error))
  {
    hide Parse;
    var parser := new Parser.Parser(chart, tokens);
    var parsed := parser.Parse();
    r := if parsed.Err? then Failure(Unparsable(parsed.error)) else Success(parser.procedures);
  }

  /** Recognises and parses the tokens. */
  method ReadTokens(tokens: seq<Token>) returns (r: Attempt<seq<Draft>>)
    requires AllTerminals(Kinds(tokens))
    ensures !Viable(CFG(), Kinds(tokens)) <==> r == Failure(Unrecognised)
    ensures forall ps :: IsSourceOf(tokens, ps) ==> IsReadAs(r, tokens, ps)
  {
    hide Final, ProgramItems, AllBuilt, IsSourceOf, IsParsedAs, IsFilled, Parse, CFG, Viable, AllTerminals, Kinds;
    var final, c := RecogniseTokens(tokens);
    if final.None? {
      NoText(tokens);
      return Failure(Unrecognised);
    }
    r := ParseChart(final.value, tokens);
    forall ps | IsSourceOf(tokens, ps)
      ensures IsReadAs(r, tokens, ps)
    {
      TextIsRead(tokens, c, ps);
    }
  }

  lemma NoText(tokens: seq<Token>)
    requires !Viable(CFG(), Kinds(tokens))
    ensures forall ps :: !IsSourceOf(tokens, ps)
  {
    hide IsSourceOf, Viable, CFG;
    forall ps
      ensures !IsSourceOf(tokens, ps)
    {
      if IsSourceOf(tokens, ps) {
        TextIsViable(tokens, ps);
      }
    }
  }

  lemma TextIsViable(tokens: seq<Token>, ps: seq<Procedure>)
    requires IsSourceOf(tokens, ps)
    ensures Viable(CFG(), Kinds(tokens))
  {
    hide Viable, CFG, AreShaped;
    ProgramsAreViable(tokens, ps);
  }

  /** The tokens are ones the tokeniser makes. */
  predicate AreTokens(tokens: seq<Token>) {
    forall i :: 0 <= i < |tokens| ==> IsToken(tokens[i])
  }

  /** The tokens are a sentence of the grammar. */
  ghost predicate IsSentence(tokens: seq<Token>) {
    Derives(CFG(), [START], Kinds(tokens))
  }

  /** The tokeniser's tokens are a sentence if and only if they are those of some program. */
  lemma SentencesHaveSources(tokens: seq<Token>)
    requires AreTokens(tokens)
    ensures IsSentence(tokens) <==> exists ps :: IsSourceOf(tokens, ps)
  {
    hide IsToken, IsTerminal;
    if IsSentence(tokens) {
      forall i | 0 <= i < |tokens|
        ensures IsTerminal(tokens[i].kind)
      {
        TokenIsTerminal(tokens[i]);
      }
      assert Trees.Holds(tokens, 0, Kinds(tokens));
      hide CFG;
      var ps := Trees.SentencesArePrograms(tokens, Kinds(tokens));
      assert IsSourceOf(tokens, ps) by { hide ProgramYield, ProgramSpelled, EndsInWain, IsShaped; }
    }
    if ps :| IsSourceOf(tokens, ps) {
      hide CFG, AreShaped;
      ProgramsAreViable(tokens, ps);
    }
  }

  // ----- initial values -----

  /** No int starts with NULL. */
  predicate StartsWithNumbers(p: Procedure) {
    forall i :: 0 <= i < |p.dcls| && p.dcls[i].dclType == Int ==> !StartsNull(p.dcls[i])
  }

  lemma {:induction false} DclsHaveValues(tokens: seq<Token>, s: nat, ds: seq<Dcl>)
    requires AreTokens(tokens) && DclsSpelled(tokens, s, ds) && Reads(Kinds(tokens), s, DclsYield(ds))
    ensures forall i :: 0 <= i < |ds| ==> (HasInitialValue(ds[i]) <==> !(ds[i].dclType == Int && StartsNull(ds[i])))
    decreases |ds|
  {
    hide IsToken, Reads, DclYield, StartsNull, HasInitialValue;
    if ds != [] {
      var front, d := ds[..|ds| - 1], ds[|ds| - 1];
      var value := [BECOMES, InitialToken(d), SEMI];
      var at := s + |DclsYield(front)|;
      assert DclsYield(ds) == DclsYield(front) + (DclYield(d) + value);
      ReadsBoth(Kinds(tokens), s, DclsYield(front), DclYield(d) + value);
      ReadsBoth(Kinds(tokens), at, DclYield(d), value);
      ReadsOne(Kinds(tokens), at + |DclYield(d)|, value, 1);
      DclsHaveValues(tokens, s, front);
      DclHasValue(tokens[at + |DclYield(d)| + 1], d);
      assert forall i :: 0 <= i < |front| ==> ds[i] == front[i];
    }
  }

  lemma DclHasValue(t: Token, d: Dcl)
    requires IsToken(t) && t == Token(InitialToken(d), d.value)
    ensures HasInitialValue(d) <==> !(d.dclType == Int && StartsNull(d))
  {
    TakenMeansTheSame(d);
    if !StartsNull(d) {
      SpellingsAreNumbers(d.value);
    }
  }

  /** In the tokens of a text every declaration has a value if and only if no int starts with NULL. */
  lemma TextHasValues(tokens: seq<Token>, ps: seq<Procedure>, k: nat)
    requires AreTokens(tokens) && IsSourceOf(tokens, ps) && k < |ps|
    ensures HasInitialValues(ps[k]) <==> StartsWithNumbers(ps[k])
  {
    hide IsToken, Reads, DclsYield, BodyYield, ExprYield, ParamsYield, ProgramYield, ProgramSpelled, EndsInWain,
         AreShaped, DclsSpelled, BodySpelled, ExprSpelled, ParamsSpelled, HasInitialValue, StartsNull;
    var w, p, s := Kinds(tokens), ps[k], |ProgramYield(ps[..k])|;
    ReadsOpenProcedure(w, ps, k);
    SpelledUpTo(tokens, ps, k);
    OpensWithHead(p);
    hide OpenYield, InsideYield;
    ReadsBoth(w, s, HeadYield(p), InsideYield(p));
    ReadsInside(w, s + |HeadYield(p)|, p);
    DclsHaveValues(tokens, DclsAt(p, s), p.dcls);
  }

  // ----- from procedures to blocks -----

  /** The blocks are a well-formed graph of the code of the procedure. */
  ghost predicate IsCodeOf(g: Graph, p: Procedure) {
    exists r: nat :: ProcedureAt(ScopeOf(p), g, p, r) && IsWellFormed(ScopeOf(p), g, r) &&
      SlotsAreAllocated(ScopeOf(p), g)
  }

  /** Generates the blocks of all procedures, in order, and records each function before its code. */
  method GenerateAll(drafts: seq<Draft>) returns (r: Attempt<seq<Graph>>, functions: map<string, nat>)
    ensures r.Success? <==>
            forall k :: 0 <= k < |drafts| ==> drafts[k].ret.Some? && HasInitialValues(ProcedureOf(drafts[k]))
    ensures r.Failure? ==>
              if forall k :: 0 <= k < |drafts| ==> drafts[k].ret.Some? then r.reason == Unvalued
              else r.reason == Incomplete || r.reason == Unvalued
    ensures r.Success? ==> |r.value| == |drafts| && functions == FunctionsOf(drafts)
    ensures r.Success? ==> forall k :: 0 <= k < |drafts| ==> IsCodeOf(r.value[k], ProcedureOf(drafts[k]))
  {
    hide ProcedureAt, IsWellFormed, SlotsAreAllocated, HasInitialValues;
    var graphs := [];
    functions := map[];
    for i := 0 to |drafts|
      invariant |graphs| == i && functions == FunctionsOf(drafts[..i])
      invariant forall k :: 0 <= k < i ==> drafts[k].ret.Some? && HasInitialValues(ProcedureOf(drafts[k]))
      invariant forall k :: 0 <= k < i ==> IsCodeOf(graphs[k], ProcedureOf(drafts[k]))
    {
      if drafts[i].ret.None? {
        return Failure(Incomplete), functions;
      }
      assert drafts[..i + 1][..i] == drafts[..i];
      functions := functions[drafts[i].name := |drafts[i].params|];
      var ok, g, b := CompileProcedure(ProcedureOf(drafts[i]));
      if !ok {
        return Failure(Unvalued), functions;
      }
      graphs := graphs + [g];
    }
    assert drafts[..|drafts|] == drafts;
    return Success(graphs), functions;
  }

  /** No int of the program starts with NULL. */
  predicate AllStartWithNumbers(ps: seq<Procedure>) {
    forall k :: 0 <= k < |ps| ==> StartsWithNumbers(ps[k])
  }

  lemma MadeCanBeGenerated(tokens: seq<Token>, ps: seq<Procedure>, qs: seq<Draft>)
    requires AreTokens(tokens) && IsSourceOf(tokens, ps) && IsMadeOfAll(ProgramItems(ps), tokens, ps, qs)
    ensures |qs| == |ps| && forall k :: 0 <= k < |ps| ==> qs[k].ret.Some?
    ensures AllStartWithNumbers(ps) <==> forall k :: 0 <= k < |ps| ==> HasInitialValues(ProcedureOf(qs[k]))
  {
    hide HasInitialValues, IsSourceOf, AreTokens, StartsWithNumbers, NamesAreRight, DistinctIds, AreAlike, BodyIsSound,
         ExprHasType, ExprResolves, ExprCallsFirst, ProgramItems, Built;
    forall k | 0 <= k < |ps|
      ensures HasInitialValues(ProcedureOf(qs[k])) <==> StartsWithNumbers(ps[k])
    {
      assert IsMadeOf(ProgramContext(ProgramItems(ps), tokens, ps, ps[k]), ps[k], qs[k]);
      TextHasValues(tokens, ps, k);
      BuiltHasValues(ps[k]);
      SameDeclarations(ps[k], ProcedureOf(qs[k]));
    }
  }

  lemma SameDeclarations(p: Procedure, q: Procedure)
    requires q.dcls == Built(p).dcls
    ensures HasInitialValues(q) <==> HasInitialValues(BuiltProcedure(p))
  {
    hide HasInitialValue, Reversed, Taken;
  }

  /** The graphs are the code of the procedures, in order. */
  ghost predicate AreCodeOf(graphs: seq<Graph>, qs: seq<Draft>) {
    |graphs| == |qs| && forall k :: 0 <= k < |qs| ==> qs[k].ret.Some? && IsCodeOf(graphs[k], ProcedureOf(qs[k]))
  }

  /** What comes out for a program: the code of procedures made of its own, unless it is not accepted or an int starts
      with NULL. Where calls come first, it is not accepted exactly when it is not well-formed, its first fault is the
      reason then, and the procedures are those that are always built. */
  ghost predicate IsAnswer(r: Attempt<seq<Graph>>, tokens: seq<Token>, ps: seq<Procedure>) {
    && (r.Failure? ==> r.reason.Unparsable? || r.reason == Unvalued)
    && (r.Success? ==>
          AllStartWithNumbers(ps) &&
          exists qs :: IsMadeOfAll(ProgramItems(ps), tokens, ps, qs) && AreCodeOf(r.value, qs))
    && (r == Failure(Unvalued) ==> !AllStartWithNumbers(ps))
    && (IsReadable(ps) ==>
          && (IsValid(tokens, ps) <==> !(r.Failure? && r.reason.Unparsable?))
          && (!IsValid(tokens, ps) ==>
                FaultsOf(tokens, ps) != [] && r == Failure(Unparsable(FaultsOf(tokens, ps)[0])))
          && (r.Success? ==> AreCodeOf(r.value, AllBuilt(ps))))
  }

  lemma GeneratedIsAnswer(r: Attempt<seq<Graph>>, tokens: seq<Token>, ps: seq<Procedure>, qs: seq<Draft>)
    requires AreTokens(tokens) && IsSourceOf(tokens, ps) && IsReadAs(Success(qs), tokens, ps)
    requires r.Success? <==> forall k :: 0 <= k < |qs| ==> qs[k].ret.Some? && HasInitialValues(ProcedureOf(qs[k]))
    requires r.Failure? && (forall k :: 0 <= k < |qs| ==> qs[k].ret.Some?) ==> r.reason == Unvalued
    requires r.Success? ==> AreCodeOf(r.value, qs)
    ensures IsAnswer(r, tokens, ps)
  {
    hide IsMadeOfAll, AreCodeOf, AreTokens, IsSourceOf, IsValid, IsReadable, AllBuilt, ProgramItems, HasInitialValues,
         AllStartWithNumbers;
    MadeCanBeGenerated(tokens, ps, qs);
  }

  /** The result is an answer to every program that has these tokens, and there is one if they are a sentence. */
  ghost predicate IsCompiledTo(tokens: seq<Token>, r: Attempt<seq<Graph>>) {
    && (forall ps :: IsSourceOf(tokens, ps) ==> IsAnswer(r, tokens, ps))
    && (IsSentence(tokens) ==> exists ps :: IsSourceOf(tokens, ps))
  }

  ghost predicate IsReadAsAll(r: Attempt<seq<Draft>>, tokens: seq<Token>) {
    forall ps :: IsSourceOf(tokens, ps) ==> IsReadAs(r, tokens, ps)
  }

  lemma RefusedIsCompiled(tokens: seq<Token>, reason: Problem)
    requires AreTokens(tokens) && IsReadAsAll(Failure(reason), tokens)
    ensures IsCompiledTo(tokens, Failure(reason))
  {
    hide IsSourceOf, IsSentence, IsAnswer, IsReadAs;
    SentencesHaveSources(tokens);
    forall ps | IsSourceOf(tokens, ps)
      ensures IsAnswer(Failure(reason), tokens, ps)
    {
      RefusedIsAnswer(reason, tokens, ps);
    }
  }

  lemma GeneratedIsCompiled(tokens: seq<Token>, r: Attempt<seq<Graph>>, qs: seq<Draft>)
    requires AreTokens(tokens) && IsReadAsAll(Success(qs), tokens)
    requires r.Success? <==> forall k :: 0 <= k < |qs| ==> qs[k].ret.Some? && HasInitialValues(ProcedureOf(qs[k]))
    requires r.Failure? && (forall k :: 0 <= k < |qs| ==> qs[k].ret.Some?) ==> r.reason == Unvalued
    requires r.Success? ==> AreCodeOf(r.value, qs)
    ensures IsCompiledTo(tokens, r)
  {
    hide IsSourceOf, IsSentence, IsAnswer, IsReadAs, HasInitialValues, AreCodeOf;
    SentencesHaveSources(tokens);
    forall ps | IsSourceOf(tokens, ps)
      ensures IsAnswer(r, tokens, ps)
    {
      GeneratedIsAnswer(r, tokens, ps, qs);
    }
  }

  /** From the tokeniser's tokens to the code of all procedures. */
  method CompileTokens(tokens: seq<Token>) returns (r: Attempt<seq<Graph>>)
    requires AreTokens(tokens) && AllTerminals(Kinds(tokens))
    ensures !Viable(CFG(), Kinds(tokens)) <==> r == Failure(Unrecognised)
    ensures IsCompiledTo(tokens, r)
  {
    hide IsSentence, IsReadAs, IsSourceOf, IsAnswer, HasInitialValues, IsCodeOf, Viable, CFG, AreTokens, AllTerminals,
         Kinds;
    var read := ReadTokens(tokens);
    if read.Failure? {
      RefusedIsCompiled(tokens, read.reason);
      return Failure(read.reason);
    }
    var functions;
    r, functions := GenerateAll(read.value);
    GeneratedIsCompiled(tokens, r, read.value);
  }

  lemma RefusedIsAnswer(reason: Problem, tokens: seq<Token>, ps: seq<Procedure>)
    requires IsReadAs(Failure(reason), tokens, ps)
    ensures IsAnswer(Failure(reason), tokens, ps)
  {
    hide IsMadeOfAll, AreCodeOf, IsValid, IsReadable, AllBuilt, ProgramItems, AllStartWithNumbers;
  }

  // ----- from the text of a program -----

  /** The text is the program's tokens, spelled by the table, with blanks and comments where tokens would meet. */
  ghost predicate IsWrittenAs(text: string, ps: seq<Procedure>, gaps: seq<string>) {
    && |gaps| == |ProgramTokens(ps)| + 1 && text == Text(gaps, ProgramTokens(ps)) && IsSpaced(gaps, ProgramTokens(ps))
    && AreWritten(ProgramTokens(ps)) && HaveTests(ps) && EndsInWain(ps) && AreShaped(ps)
  }

  /** A program that is written out is read as its own tokens. */
  lemma WrittenIsRead(text: string, ps: seq<Procedure>, gaps: seq<string>)
    requires IsWrittenAs(text, ps, gaps)
    ensures LexFile(text) == Lexed(ProgramTokens(ps)) && IsSourceOf(ProgramTokens(ps), ps)
  {
    hide ProgramYield, ProgramSpelled, IsSpaced, Text, HasTests, LexFile, AreShaped, IsWritten;
    var ts := ProgramTokens(ps);
    FileIsLexed(gaps, ts);
    assert Lies(ts, 0, ts);
    ProgramPrints(ts, ps);
    assert Kinds(ts) == ProgramYield(ps);
    EndsInBrace(ps);
  }

  /** Compiles a text. Every sentence of tokens is that of a program, and what comes out is an answer to it. A program
      that is written out in any spacing is answered as such: if it is well-formed, has calls first and starts no int
      with NULL, it becomes the code of its procedures. */
  method CompileText(text: string) returns (r: Attempt<seq<Graph>>)
    ensures match LexFile(text)
            case Failed(error) => r == Failure(Untokenisable(error))
            case Lexed(tokens) =>
              (!Viable(CFG(), Kinds(tokens)) <==> r == Failure(Unrecognised)) && IsCompiledTo(tokens, r)
    ensures forall ps, gaps :: IsWrittenAs(text, ps, gaps) ==> IsAnswer(r, ProgramTokens(ps), ps)
    ensures forall ps, gaps ::
              IsWrittenAs(text, ps, gaps) && IsReadable(ps) && IsValid(ProgramTokens(ps), ps) &&
              AllStartWithNumbers(ps) ==>
                r.Success? && AreCodeOf(r.value, AllBuilt(ps))
  {
    hide Lex, LexFile, IsCompiledTo, Viable, CFG, AllTerminals, Kinds, IsToken, IsWrittenAs, IsAnswer, IsReadable,
         IsValid, AllStartWithNumbers, AreCodeOf, AllBuilt, ProgramTokens;
    var tokeniser := new Tokeniser.Tokeniser();
    var error := tokeniser.Tokenise(text);
    if error.Some? {
      r := Failure(Untokenisable(error.value));
    } else {
      LexedFile(text);
      assert LexFile(text) == Lexed(tokeniser.tokens) by {
        assert [] + LexFile(text).tokens == LexFile(text).tokens;
      }
      KindsAreTerminals(text);
      LexedAreTokens(text);
      r := CompileTokens(tokeniser.tokens);
    }
    forall ps, gaps | IsWrittenAs(text, ps, gaps)
      ensures IsAnswer(r, ProgramTokens(ps), ps)
      ensures IsReadable(ps) && IsValid(ProgramTokens(ps), ps) && AllStartWithNumbers(ps) ==>
                r.Success? && AreCodeOf(r.value, AllBuilt(ps))
    {
      WrittenIsRead(text, ps, gaps);
      CompiledAnswers(ProgramTokens(ps), r, ps);
    }
  }

  lemma LexedFile(text: string)
    requires LexFile(text).Lexed?
    ensures Lex(text) == LexFile(text)
  {
    hide Lex, EndsOpen;
  }

  lemma CompiledAnswers(tokens: seq<Token>, r: Attempt<seq<Graph>>, ps: seq<Procedure>)
    requires IsCompiledTo(tokens, r) && IsSourceOf(tokens, ps)
    ensures IsAnswer(r, tokens, ps)
    ensures IsReadable(ps) && IsValid(tokens, ps) && AllStartWithNumbers(ps) ==>
              r.Success? && AreCodeOf(r.value, AllBuilt(ps))
  {
    hide IsSourceOf, IsSentence, IsReadable, IsValid, AllStartWithNumbers, AreCodeOf, AllBuilt, IsMadeOfAll;
  }

  /** The code of a procedure of a well-formed program, in the fragment, halts with an outcome if and only if the source
      procedure does, given its arguments in source order for wain and in reverse for all others. */
  lemma CodeMeansTheSource(world: World, tokens: seq<Token>, ps: seq<Procedure>, k: nat, g: Graph, args: seq<Value>,
                           heap: Heap, o: Semantics.Outcome)
    requires IsTextOf(tokens, ps) && IsValid(tokens, ps) && k < |ps| && IsCodeOf(g, BuiltProcedure(ps[k]))
    requires IsPlain(ps[k]) && ArgumentsFit(ps[k], args) && o != Unfinished
    ensures (exists fuel: nat :: RunProcedure(world, fuel, ps[k], args, heap) == o) <==>
            (exists n: nat :: Steps(g, At(0, Start(world, BuiltArguments(ps[k], args), heap)), n) == Halt(o))
  {
    hide ProcedureAt, IsWellFormed, SlotsAreAllocated, RunProcedure, Steps, IsPlain, ArgumentsFit, IsProgram,
         ProgramItems, ProgramSpelled;
    var q := BuiltProcedure(ps[k]);
    var r: nat :| ProcedureAt(ScopeOf(q), g, q, r) && IsWellFormed(ScopeOf(q), g, r) &&
      SlotsAreAllocated(ScopeOf(q), g);
    CompilesCorrectly(world, ProgramItems(ps), tokens, ps, k, g, r, args, heap, o);
  }
}
