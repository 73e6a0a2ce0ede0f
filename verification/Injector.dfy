/**
 The generator of INSERT and UPDATE templates from a table description.
 */
module Injector {

  import opened Lists
  import opened Options
  import opened Sql
  import opened Templates
  import Conditions

  // ---------------------------------------------------------------- table descriptions

  datatype Strategy = Ignored | NotNullCheck | NotEmptyCheck
  datatype Fill = DefaultFill | InsertFill | UpdateFill | InsertUpdateFill

  /** `testName` is the property as it appears in an `if` test, `el` as it appears in #{...};
      `isText` says whether the property's type is a CharSequence. */
  datatype Field = Field(column: string, testName: string, el: string, isText: bool,
                         strategy: Strategy, fill: Fill, update: string, condition: string,
                         logicDeleteValue: string, logicNotDeleteValue: string)

  datatype Table = Table(name: string, keyProperty: string, keyColumn: string,
                         autoKey: bool, keySequence: bool, fields: seq<Field>, globalStrategy: Strategy)

  // ---------------------------------------------------------------- if tags

  function IfTest(f: Field, strategy: Strategy, prefix: string): Test {
    if strategy == NotEmptyCheck && f.isText then NotEmpty(prefix + f.testName) else NotNull(prefix + f.testName)
  }

  /** convertIfTag: an ignored field has no tag where ignoring is allowed, and otherwise falls back to
      the global strategy. */
  function ConvertIfTag(t: Table, ignored: bool, f: Field, prefix: string, close: bool): seq<Piece> {
    if f.strategy == Ignored && ignored then []
    else
      var strategy := if f.strategy == Ignored then t.globalStrategy else f.strategy;
      if close then [End(IfName)] else [T(Blank), Start(If(IfTest(f, strategy, prefix)))]
  }

  /** Whether the text between the two tags appears. */
  predicate TagLetsThrough(t: Table, ignored: bool, f: Field, prefix: string, env: Env) {
    || (f.strategy == Ignored && ignored)
    || TestHolds(IfTest(f, if f.strategy == Ignored then t.globalStrategy else f.strategy, prefix), env)
  }

  /** The opening and the closing call agree on whether there is a tag, so the text between them is
      always well nested; white space aside it appears exactly when the test allows. */
  lemma IfTagPaired(t: Table, ignored: bool, f: Field, prefix: string, ps: seq<Piece>, env: Env, out: seq<Out>)
    returns (o: seq<Out>)
    requires RunsTo(ps, env, out)
    ensures RunsTo(ConvertIfTag(t, ignored, f, prefix, false) + ps + ConvertIfTag(t, ignored, f, prefix, true), env, o)
    ensures Solid(o) == if TagLetsThrough(t, ignored, f, prefix, env) then Solid(out) else []
  {
    var opening, closing := ConvertIfTag(t, ignored, f, prefix, false), ConvertIfTag(t, ignored, f, prefix, true);
    if opening == [] {
      assert opening + ps + closing == ps;
      o := out;
    } else {
      var tag := opening[1].tag;
      RunsToElement(tag, ps, env, out);
      RunsToText(Blank, env);
      RunsToAppend([T(Blank)], Wrap(tag, ps), env, [Space], Element(tag, env, out));
      assert opening + ps + closing == [T(Blank)] + Wrap(tag, ps);
      o := [Space] + Element(tag, env, out);
      SolidAppend([Space], Element(tag, env, out));
    }
  }

  // ---------------------------------------------------------------- lists with separators

  /** Every item followed by a comma. */
  function Terminated(os: seq<Out>): seq<Out> {
    if os == [] then [] else [os[0], Comma] + Terminated(os[1..])
  }

  function Joined(os: seq<Out>): seq<Out> {
    if os == [] then [] else if |os| == 1 then os else [os[0], Comma] + Joined(os[1..])
  }

  lemma {:induction false} TerminatedIsJoined(os: seq<Out>)
    requires os != []
    ensures var t := Terminated(os);
      t != [] && t[|t| - 1] == Comma && t[..|t| - 1] == Joined(os)
  {
    if |os| > 1 {
      TerminatedIsJoined(os[1..]);
      var t := Terminated(os[1..]);
      assert ([os[0], Comma] + t)[..|t| + 1] == [os[0], Comma] + t[..|t| - 1];
    } else {
      assert Terminated(os[1..]) == [];
    }
  }

  lemma {:induction false} TerminatedAppend(a: seq<Out>, b: seq<Out>)
    ensures Terminated(a + b) == Terminated(a) + Terminated(b)
  {
    if a == [] {
      assert a + b == b;
    } else {
      assert (a + b)[1..] == a[1..] + b;
      TerminatedAppend(a[1..], b);
    }
  }

  /** A trimmed list of items, each with a comma behind it, is the list with commas between. */
  lemma TrimmedList(tag: Tag, content: seq<Out>, items: seq<Out>)
    requires tag.Trim? && tag.suffixOverride == Comma
    requires Solid(tag.prefix) == tag.prefix && Solid(tag.suffix) == tag.suffix
    requires Solid(content) == Terminated(items)
    ensures Solid(TrimOut(tag, content)) == if items == [] then [] else tag.prefix + Joined(items) + tag.suffix
  {
    TrimSolid(tag, content);
    if items != [] {
      TerminatedIsJoined(items);
    }
  }

  /** The pieces run to a list of items, each with a comma behind it. */
  ghost predicate YieldsList(ps: seq<Piece>, env: Env, items: seq<Out>) {
    exists out :: RunsTo(ps, env, out) && Solid(out) == Terminated(items)
  }

  /** Evaluating a run of per-field pieces, each of which yields its items or nothing. */
  lemma {:induction false} EachField(pss: seq<seq<Piece>>, env: Env, items: seq<seq<Out>>)
    returns (o: seq<Out>)
    requires |pss| == |items|
    requires forall i :: 0 <= i < |pss| ==> YieldsList(pss[i], env, items[i])
    ensures RunsTo(Flatten(pss), env, o) && Solid(o) == Terminated(Flatten(items))
  {
    if pss == [] {
      o := [];
    } else {
      assert YieldsList(pss[0], env, items[0]);
      var first :| RunsTo(pss[0], env, first) && Solid(first) == Terminated(items[0]);
      forall i | 0 <= i < |pss| - 1 ensures YieldsList(pss[1..][i], env, items[1..][i]) {
        assert YieldsList(pss[i + 1], env, items[i + 1]);
      }
      var rest := EachField(pss[1..], env, items[1..]);
      o := first + rest;
      RunsToAppend(pss[0], Flatten(pss[1..]), env, first, rest);
      SolidAppend(first, rest);
      TerminatedAppend(items[0], Flatten(items[1..]));
    }
  }

  lemma ListPieces(tag: Tag, lead: seq<Piece>, leadItems: seq<Out>, leadOut: seq<Out>,
                   pss: seq<seq<Piece>>, items: seq<seq<Out>>, env: Env)
    returns (o: seq<Out>)
    requires tag.Trim? && tag.suffixOverride == Comma
    requires Solid(tag.prefix) == tag.prefix && Solid(tag.suffix) == tag.suffix
    requires RunsTo(lead, env, leadOut) && Solid(leadOut) == Terminated(leadItems)
    requires |pss| == |items|
    requires forall i :: 0 <= i < |pss| ==> YieldsList(pss[i], env, items[i])
    ensures RunsTo(Wrap(tag, (lead + Flatten(pss)) + [T(Blank)]), env, o)
    ensures var all := leadItems + Flatten(items);
      Solid(o) == if all == [] then [] else tag.prefix + Joined(all) + tag.suffix
  {
    var each := EachField(pss, env, items);
    RunsToAppend(lead, Flatten(pss), env, leadOut, each);
    RunsToText(Blank, env);
    RunsToAppend(lead + Flatten(pss), [T(Blank)], env, leadOut + each, [Space]);
    var content := (leadOut + each) + [Space];
    RunsToElement(tag, (lead + Flatten(pss)) + [T(Blank)], env, content);
    SolidAppend(leadOut + each, [Space]);
    SolidAppend(leadOut, each);
    TerminatedAppend(leadItems, Flatten(items));
    TrimmedList(tag, content, leadItems + Flatten(items));
    o := Element(tag, env, content);
  }

  // ---------------------------------------------------------------- INSERT

  const PARENS := Trim([LParen], [RParen], Comma)

  predicate HasInsertedKey(t: Table) {
    !Conditions.Blank(t.keyProperty) && !t.autoKey
  }

  predicate InsertTagged(selective: bool, f: Field) {
    selective && f.fill != InsertFill && f.fill != InsertUpdateFill
  }

  function NamePieces(t: Table, selective: bool, f: Field): seq<Piece> {
    var ps := [T(ColumnName(f.column)), T(CommaText)];
    if InsertTagged(selective, f)
    then ConvertIfTag(t, true, f, "", false) + ps + ConvertIfTag(t, true, f, "", true)
    else ps
  }

  function ValuePieces(t: Table, selective: bool, f: Field): seq<Piece> {
    var ps := [T(ParamRef(f.el)), T(CommaText)];
    if InsertTagged(selective, f)
    then ConvertIfTag(t, true, f, "", false) + ps + ConvertIfTag(t, true, f, "", true)
    else ps
  }

  function EachName(t: Table, selective: bool, fields: seq<Field>): (pss: seq<seq<Piece>>)
    ensures |pss| == |fields| && forall i :: 0 <= i < |fields| ==> pss[i] == NamePieces(t, selective, fields[i])
  {
    seq(|fields|, i requires 0 <= i < |fields| => NamePieces(t, selective, fields[i]))
  }

  function EachValue(t: Table, selective: bool, fields: seq<Field>): (pss: seq<seq<Piece>>)
    ensures |pss| == |fields| && forall i :: 0 <= i < |fields| ==> pss[i] == ValuePieces(t, selective, fields[i])
  {
    seq(|fields|, i requires 0 <= i < |fields| => ValuePieces(t, selective, fields[i]))
  }

  function KeyName(t: Table): seq<Piece> {
    [T(Blank)] + if HasInsertedKey(t) then [T(ColumnName(t.keyColumn)), T(CommaText)] else []
  }

  function KeyValue(t: Table): seq<Piece> {
    [T(Blank)] + if HasInsertedKey(t) then [T(ParamRef(t.keyProperty)), T(CommaText)] else []
  }

  function InsertNames(t: Table, selective: bool): seq<Piece> {
    Wrap(PARENS, (KeyName(t) + Flatten(EachName(t, selective, t.fields))) + [T(Blank)])
  }

  function InsertValues(t: Table, selective: bool): seq<Piece> {
    Wrap(PARENS, (KeyValue(t) + Flatten(EachValue(t, selective, t.fields))) + [T(Blank)])
  }

  /** injectInsertOneSql: the two templates of the INSERT statement, built side by side in one loop. */
  method InjectInsertOne(selective: bool, t: Table) returns (names: seq<Piece>, values: seq<Piece>)
    ensures names == InsertNames(t, selective) && values == InsertValues(t, selective)
  {
    names, values := [Start(PARENS)] + [T(Blank)], [Start(PARENS)] + [T(Blank)];
    if !Conditions.Blank(t.keyProperty) {
      if !t.autoKey {
        if t.keySequence {
          names := names + [T(ColumnName(t.keyColumn)), T(CommaText)];
          values := values + [T(ParamRef(t.keyProperty)), T(CommaText)];
        } else {
          names := names + [T(ColumnName(t.keyColumn)), T(CommaText)];
          values := values + [T(ParamRef(t.keyProperty)), T(CommaText)];
        }
      }
    }
    assert names == [Start(PARENS)] + KeyName(t) && values == [Start(PARENS)] + KeyValue(t);
    for i := 0 to |t.fields|
      invariant names == [Start(PARENS)] + (KeyName(t) + Flatten(EachName(t, selective, t.fields[..i])))
      invariant values == [Start(PARENS)] + (KeyValue(t) + Flatten(EachValue(t, selective, t.fields[..i])))
    {
      var f := t.fields[i];
      NextField(t, selective, i);
      Assoc4([Start(PARENS)], KeyName(t), Flatten(EachName(t, selective, t.fields[..i])), NamePieces(t, selective, f));
      Assoc4([Start(PARENS)], KeyValue(t), Flatten(EachValue(t, selective, t.fields[..i])),
             ValuePieces(t, selective, f));
      var ifTag := !(f.fill == InsertFill || f.fill == InsertUpdateFill);
      if selective && ifTag {
        names := names + (ConvertIfTag(t, true, f, "", false) + [T(ColumnName(f.column)), T(CommaText)]
                          + ConvertIfTag(t, true, f, "", true));
        values := values + (ConvertIfTag(t, true, f, "", false) + [T(ParamRef(f.el)), T(CommaText)]
                            + ConvertIfTag(t, true, f, "", true));
      } else {
        names := names + [T(ColumnName(f.column)), T(CommaText)];
        values := values + [T(ParamRef(f.el)), T(CommaText)];
      }
    }
    assert t.fields[..|t.fields|] == t.fields;
    AppendEnd([Start(PARENS)], KeyName(t) + Flatten(EachName(t, selective, t.fields)), [T(Blank)], [End(TrimName)]);
    AppendEnd([Start(PARENS)], KeyValue(t) + Flatten(EachValue(t, selective, t.fields)), [T(Blank)], [End(TrimName)]);
    names := names + [T(Blank)] + [End(TrimName)];
    values := values + [T(Blank)] + [End(TrimName)];
  }

  lemma NextField(t: Table, selective: bool, i: nat)
    requires i < |t.fields|
    ensures Flatten(EachName(t, selective, t.fields[..i + 1])) ==
            Flatten(EachName(t, selective, t.fields[..i])) + NamePieces(t, selective, t.fields[i])
    ensures Flatten(EachValue(t, selective, t.fields[..i + 1])) ==
            Flatten(EachValue(t, selective, t.fields[..i])) + ValuePieces(t, selective, t.fields[i])
  {
    assert EachName(t, selective, t.fields[..i + 1]) ==
           EachName(t, selective, t.fields[..i]) + [NamePieces(t, selective, t.fields[i])];
    FlattenAppend(EachName(t, selective, t.fields[..i]), NamePieces(t, selective, t.fields[i]));
    assert EachValue(t, selective, t.fields[..i + 1]) ==
           EachValue(t, selective, t.fields[..i]) + [ValuePieces(t, selective, t.fields[i])];
    FlattenAppend(EachValue(t, selective, t.fields[..i]), ValuePieces(t, selective, t.fields[i]));
  }

  /** Whether a field takes part in the INSERT of one call. */
  predicate Inserted(t: Table, selective: bool, f: Field, env: Env) {
    InsertTagged(selective, f) ==> TagLetsThrough(t, true, f, "", env)
  }

  /** The columns of one INSERT, each with the property its value comes from. */
  function InsertedPairs(t: Table, selective: bool, fields: seq<Field>, env: Env): seq<(string, string)> {
    if fields == [] then []
    else (if Inserted(t, selective, fields[0], env) then [(fields[0].column, fields[0].el)] else [])
         + InsertedPairs(t, selective, fields[1..], env)
  }

  function AllPairs(t: Table, selective: bool, env: Env): seq<(string, string)> {
    KeyPair(t) + InsertedPairs(t, selective, t.fields, env)
  }

  function Names(pairs: seq<(string, string)>): (os: seq<Out>)
    ensures |os| == |pairs| && forall i :: 0 <= i < |pairs| ==> os[i] == Name(pairs[i].0)
  {
    seq(|pairs|, i requires 0 <= i < |pairs| => Name(pairs[i].0))
  }

  function Params(pairs: seq<(string, string)>): (os: seq<Out>)
    ensures |os| == |pairs| && forall i :: 0 <= i < |pairs| ==> os[i] == Param(pairs[i].1)
  {
    seq(|pairs|, i requires 0 <= i < |pairs| => Param(pairs[i].1))
  }

  function FieldPair(t: Table, selective: bool, env: Env, f: Field): seq<(string, string)> {
    if Inserted(t, selective, f, env) then [(f.column, f.el)] else []
  }

  function EachPair(t: Table, selective: bool, env: Env, fields: seq<Field>): (xs: seq<seq<(string, string)>>)
    ensures |xs| == |fields| && forall i :: 0 <= i < |fields| ==> xs[i] == FieldPair(t, selective, env, fields[i])
  {
    seq(|fields|, i requires 0 <= i < |fields| => FieldPair(t, selective, env, fields[i]))
  }

  lemma {:induction false} PairsAreFlat(t: Table, selective: bool, env: Env, fields: seq<Field>)
    ensures InsertedPairs(t, selective, fields, env) == Flatten(EachPair(t, selective, env, fields))
  {
    if fields != [] {
      PairsAreFlat(t, selective, env, fields[1..]);
      assert EachPair(t, selective, env, fields)[1..] == EachPair(t, selective, env, fields[1..]);
    }
  }

  function NamesEach(xs: seq<seq<(string, string)>>): (os: seq<seq<Out>>)
    ensures |os| == |xs| && forall i :: 0 <= i < |xs| ==> os[i] == Names(xs[i])
  {
    seq(|xs|, i requires 0 <= i < |xs| => Names(xs[i]))
  }

  function ParamsEach(xs: seq<seq<(string, string)>>): (os: seq<seq<Out>>)
    ensures |os| == |xs| && forall i :: 0 <= i < |xs| ==> os[i] == Params(xs[i])
  {
    seq(|xs|, i requires 0 <= i < |xs| => Params(xs[i]))
  }

  lemma {:induction false} FlatNames(xs: seq<seq<(string, string)>>)
    ensures Flatten(NamesEach(xs)) == Names(Flatten(xs)) && Flatten(ParamsEach(xs)) == Params(Flatten(xs))
  {
    if xs != [] {
      FlatNames(xs[1..]);
      assert NamesEach(xs)[1..] == NamesEach(xs[1..]) && ParamsEach(xs)[1..] == ParamsEach(xs[1..]);
    }
  }

  lemma FieldRuns(t: Table, selective: bool, f: Field, env: Env)
    ensures YieldsList(NamePieces(t, selective, f), env, Names(FieldPair(t, selective, env, f)))
    ensures YieldsList(ValuePieces(t, selective, f), env, Params(FieldPair(t, selective, env, f)))
  {
    var names := TwoTexts(ColumnName(f.column), env);
    var values := TwoTexts(ParamRef(f.el), env);
    OneTerminated(Name(f.column));
    OneTerminated(Param(f.el));
    if InsertTagged(selective, f) {
      names := IfTagPaired(t, true, f, "", [T(ColumnName(f.column)), T(CommaText)], env, names);
      values := IfTagPaired(t, true, f, "", [T(ParamRef(f.el)), T(CommaText)], env, values);
    }
    if Inserted(t, selective, f, env) {
      assert Names([(f.column, f.el)]) == [Name(f.column)] && Params([(f.column, f.el)]) == [Param(f.el)];
    }
    assert RunsTo(NamePieces(t, selective, f), env, names);
    assert RunsTo(ValuePieces(t, selective, f), env, values);
  }

  lemma TwoTexts(x: Text, env: Env) returns (o: seq<Out>)
    ensures o == Render(x, env) + [Comma] && RunsTo([T(x), T(CommaText)], env, o)
  {
    RunsToText(x, env);
    RunsToText(CommaText, env);
    o := Render(x, env) + [Comma];
    RunsToAppend([T(x)], [T(CommaText)], env, Render(x, env), [Comma]);
    assert [T(x)] + [T(CommaText)] == [T(x), T(CommaText)];
  }

  lemma OneTerminated(o: Out)
    requires o != Space
    ensures Terminated([o]) == [o] + [Comma] && Solid([o] + [Comma]) == [o] + [Comma]
  {
    assert [o][1..] == [];
    SolidAppend([o], [Comma]);
    assert Solid([o]) == [o] && Solid([Comma]) == [Comma];
  }

  lemma KeyRuns(t: Table, env: Env) returns (names: seq<Out>, values: seq<Out>)
    ensures RunsTo(KeyName(t), env, names) && RunsTo(KeyValue(t), env, values)
    ensures Solid(names) == Terminated(Names(KeyPair(t))) && Solid(values) == Terminated(Params(KeyPair(t)))
  {
    RunsToText(Blank, env);
    if HasInsertedKey(t) {
      var ns := TwoTexts(ColumnName(t.keyColumn), env);
      var vs := TwoTexts(ParamRef(t.keyProperty), env);
      RunsToAppend([T(Blank)], [T(ColumnName(t.keyColumn)), T(CommaText)], env, [Space], ns);
      RunsToAppend([T(Blank)], [T(ParamRef(t.keyProperty)), T(CommaText)], env, [Space], vs);
      names, values := [Space] + ns, [Space] + vs;
      OneTerminated(Name(t.keyColumn));
      OneTerminated(Param(t.keyProperty));
      SolidAppend([Space], ns);
      SolidAppend([Space], vs);
      var key := [(t.keyColumn, t.keyProperty)];
      assert Names(key) == [Name(t.keyColumn)] && Params(key) == [Param(t.keyProperty)];
    } else {
      names, values := [Space], [Space];
      assert KeyName(t) == [T(Blank)] && KeyValue(t) == [T(Blank)];
    }
  }

  /** For every table, mode and call: the INSERT template is well nested, and its two parenthesised
      lists are the columns and the values of the same pairs, in the same order, with commas between
      and none left over. Without any pair both lists are empty. */
  lemma InsertAligned(t: Table, selective: bool, env: Env) returns (names: seq<Out>, values: seq<Out>)
    ensures RunsTo(InsertNames(t, selective), env, names)
    ensures RunsTo(InsertValues(t, selective), env, values)
    ensures var pairs := AllPairs(t, selective, env);
      if pairs == [] then Solid(names) == [] && Solid(values) == []
      else Solid(names) == [LParen] + Joined(Names(pairs)) + [RParen]
           && Solid(values) == [LParen] + Joined(Params(pairs)) + [RParen]
  {
    var keyNames, keyValues := KeyRuns(t, env);
    names := NamesRun(t, selective, env, keyNames);
    values := ValuesRun(t, selective, env, keyValues);
  }

  function KeyPair(t: Table): seq<(string, string)> {
    if HasInsertedKey(t) then [(t.keyColumn, t.keyProperty)] else []
  }

  lemma AllItems(t: Table, selective: bool, env: Env)
    ensures var each, pairs := EachPair(t, selective, env, t.fields), AllPairs(t, selective, env);
      && Names(KeyPair(t)) + Flatten(NamesEach(each)) == Names(pairs)
      && Params(KeyPair(t)) + Flatten(ParamsEach(each)) == Params(pairs)
  {
    PairsAreFlat(t, selective, env, t.fields);
    FlatNames(EachPair(t, selective, env, t.fields));
    NamesAppend(KeyPair(t), Flatten(EachPair(t, selective, env, t.fields)));
  }

  lemma NamesAppend(a: seq<(string, string)>, b: seq<(string, string)>)
    ensures Names(a) + Names(b) == Names(a + b) && Params(a) + Params(b) == Params(a + b)
  {
  }

  lemma NamesRun(t: Table, selective: bool, env: Env, lead: seq<Out>) returns (o: seq<Out>)
    requires RunsTo(KeyName(t), env, lead) && Solid(lead) == Terminated(Names(KeyPair(t)))
    ensures RunsTo(InsertNames(t, selective), env, o)
    ensures var names := Names(AllPairs(t, selective, env));
      Solid(o) == if names == [] then [] else [LParen] + Joined(names) + [RParen]
  {
    var each := EachPair(t, selective, env, t.fields);
    forall i | 0 <= i < |t.fields|
      ensures YieldsList(EachName(t, selective, t.fields)[i], env, NamesEach(each)[i])
    {
      FieldRuns(t, selective, t.fields[i], env);
    }
    o := ListPieces(PARENS, KeyName(t), Names(KeyPair(t)),
                    lead, EachName(t, selective, t.fields), NamesEach(each), env);
    AllItems(t, selective, env);
  }

  lemma ValuesRun(t: Table, selective: bool, env: Env, lead: seq<Out>) returns (o: seq<Out>)
    requires RunsTo(KeyValue(t), env, lead) && Solid(lead) == Terminated(Params(KeyPair(t)))
    ensures RunsTo(InsertValues(t, selective), env, o)
    ensures var values := Params(AllPairs(t, selective, env));
      Solid(o) == if values == [] then [] else [LParen] + Joined(values) + [RParen]
  {
    var each := EachPair(t, selective, env, t.fields);
    forall i | 0 <= i < |t.fields|
      ensures YieldsList(EachValue(t, selective, t.fields)[i], env, ParamsEach(each)[i])
    {
      FieldRuns(t, selective, t.fields[i], env);
    }
    o := ListPieces(PARENS, KeyValue(t), Params(KeyPair(t)),
                    lead, EachValue(t, selective, t.fields), ParamsEach(each), env);
    AllItems(t, selective, env);
  }

  // ---------------------------------------------------------------- UPDATE ... SET

  const SET_TRIM := Trim([Keyword("SET")], [], Comma)

  predicate SetTagged(selective: bool, f: Field) {
    selective && f.fill != UpdateFill && f.fill != InsertUpdateFill
  }

  function SetPieces(t: Table, selective: bool, prefix: string, f: Field): seq<Piece> {
    var ps := [T(SetParam(f.column, prefix + f.el)), T(CommaText)];
    if SetTagged(selective, f) then
      if !Conditions.Blank(f.update) then [T(SetText(f.column, f.update)), T(CommaText)]
      else ConvertIfTag(t, true, f, prefix, false) + ps + ConvertIfTag(t, true, f, prefix, true)
    else if f.fill != InsertFill then ps
    else []
  }

  function EachSet(t: Table, selective: bool, prefix: string, fields: seq<Field>): (pss: seq<seq<Piece>>)
    ensures |pss| == |fields| && forall i :: 0 <= i < |fields| ==> pss[i] == SetPieces(t, selective, prefix, fields[i])
  {
    seq(|fields|, i requires 0 <= i < |fields| => SetPieces(t, selective, prefix, fields[i]))
  }

  function SqlSetPieces(t: Table, selective: bool, prefix: string): seq<Piece> {
    Wrap(SET_TRIM, ([] + Flatten(EachSet(t, selective, prefix, t.fields))) + [T(Blank)])
  }

  lemma NextSet(t: Table, selective: bool, prefix: string, i: nat)
    requires i < |t.fields|
    ensures Flatten(EachSet(t, selective, prefix, t.fields[..i + 1])) ==
            Flatten(EachSet(t, selective, prefix, t.fields[..i])) + SetPieces(t, selective, prefix, t.fields[i])
  {
    assert EachSet(t, selective, prefix, t.fields[..i + 1]) ==
           EachSet(t, selective, prefix, t.fields[..i]) + [SetPieces(t, selective, prefix, t.fields[i])];
    FlattenAppend(EachSet(t, selective, prefix, t.fields[..i]), SetPieces(t, selective, prefix, t.fields[i]));
  }

  /** sqlSet. */
  method SqlSet(selective: bool, t: Table, prefix: string) returns (ps: seq<Piece>)
    ensures ps == SqlSetPieces(t, selective, prefix)
  {
    ps := [Start(SET_TRIM)];
    for i := 0 to |t.fields|
      invariant ps == [Start(SET_TRIM)] + Flatten(EachSet(t, selective, prefix, t.fields[..i]))
    {
      var f := t.fields[i];
      NextSet(t, selective, prefix, i);
      var ifTag := !(f.fill == UpdateFill || f.fill == InsertUpdateFill);
      var added: seq<Piece> := [];
      if selective && ifTag {
        if !Conditions.Blank(f.update) {
          added := [T(SetText(f.column, f.update)), T(CommaText)];
        } else {
          added := ConvertIfTag(t, true, f, prefix, false) + [T(SetParam(f.column, prefix + f.el)), T(CommaText)]
                   + ConvertIfTag(t, true, f, prefix, true);
        }
      } else if f.fill != InsertFill {
        added := [T(SetParam(f.column, prefix + f.el)), T(CommaText)];
      }
      Assoc([Start(SET_TRIM)], Flatten(EachSet(t, selective, prefix, t.fields[..i])), added);
      ps := ps + added;
    }
    assert t.fields[..|t.fields|] == t.fields;
    ghost var all := Flatten(EachSet(t, selective, prefix, t.fields));
    assert [] + all == all;
    AppendEnd([Start(SET_TRIM)], all, [T(Blank)], [End(TrimName)]);
    ps := ps + [T(Blank)] + [End(TrimName)];
  }

  /** What the SET clause of one call assigns from one field. */
  function FieldAssignment(t: Table, selective: bool, prefix: string, env: Env, f: Field): seq<Out> {
    var value := [Assign(f.column, ToValue(env.value(prefix + f.el)))];
    if SetTagged(selective, f) then
      if !Conditions.Blank(f.update) then [Assign(f.column, ToText(f.update))]
      else if TagLetsThrough(t, true, f, prefix, env) then value
      else []
    else if f.fill != InsertFill then value
    else []
  }

  function Assignments(t: Table, selective: bool, prefix: string, env: Env, fields: seq<Field>): (xs: seq<seq<Out>>)
    ensures |xs| == |fields|
    ensures forall i :: 0 <= i < |fields| ==> xs[i] == FieldAssignment(t, selective, prefix, env, fields[i])
  {
    seq(|fields|, i requires 0 <= i < |fields| => FieldAssignment(t, selective, prefix, env, fields[i]))
  }

  lemma FieldSetRuns(t: Table, selective: bool, prefix: string, f: Field, env: Env)
    ensures YieldsList(SetPieces(t, selective, prefix, f), env, FieldAssignment(t, selective, prefix, env, f))
  {
    var value := TwoTexts(SetParam(f.column, prefix + f.el), env);
    var text := TwoTexts(SetText(f.column, f.update), env);
    OneTerminated(Assign(f.column, ToValue(env.value(prefix + f.el))));
    OneTerminated(Assign(f.column, ToText(f.update)));
    if SetTagged(selective, f) {
      if !Conditions.Blank(f.update) {
        assert RunsTo(SetPieces(t, selective, prefix, f), env, text);
      } else {
        var o := IfTagPaired(t, true, f, prefix, [T(SetParam(f.column, prefix + f.el)), T(CommaText)], env, value);
        assert RunsTo(SetPieces(t, selective, prefix, f), env, o);
      }
    } else if f.fill != InsertFill {
      assert RunsTo(SetPieces(t, selective, prefix, f), env, value);
    } else {
      assert RunsTo([], env, []);
    }
  }

  /** For every table, mode and call: the SET template is well nested and assigns exactly the columns
      of the fields that take part, in order; with none, there is no SET clause at all. */
  lemma SetClause(t: Table, selective: bool, prefix: string, env: Env) returns (o: seq<Out>)
    ensures RunsTo(SqlSetPieces(t, selective, prefix), env, o)
    ensures var all := Flatten(Assignments(t, selective, prefix, env, t.fields));
      Solid(o) == if all == [] then [] else [Keyword("SET")] + Joined(all)
  {
    var items := Assignments(t, selective, prefix, env, t.fields);
    forall i | 0 <= i < |t.fields|
      ensures YieldsList(EachSet(t, selective, prefix, t.fields)[i], env, items[i])
    {
      FieldSetRuns(t, selective, prefix, t.fields[i], env);
    }
    assert RunsTo([], env, []);
    o := ListPieces(SET_TRIM, [], [], [], EachSet(t, selective, prefix, t.fields), items, env);
    assert [] + Flatten(items) == Flatten(items);
  }
}
