/**
 * internal/service/article.go: the five article request records and the
 * validation their `binding` tags ask of gin's validator. Each record lists its
 * fields with their rules (`Fields`), `Valid` holds when every rule holds, and
 * one lemma per record spells out what that means for the record's values.
 * On strings the length rules count characters; on integers they compare values.
 */
module ArticleService {
  import opened GoInts
  import opened Wrappers
  import Convert

  /** The validator rules used in the tags. */
  datatype Rule = Required | Min(n: nat) | Max(n: nat) | Gte(n: nat) | OneOf(options: seq<string>)

  /** A bound field: a Go string, or an unsigned integer. */
  datatype FieldValue = Text(s: string) | Unsigned(u: nat)

  datatype Field = Field(value: FieldValue, rules: seq<Rule>)

  /**
   * One rule on one value. For an unsigned value `oneof` renders the value in
   * decimal and looks that text up among the options.
   */
  predicate Satisfies(v: FieldValue, rule: Rule)
  {
    match v
    case Text(s) =>
      (match rule
       case Required => s != ""
       case Min(n) => |s| >= n
       case Max(n) => |s| <= n
       case Gte(n) => |s| >= n
       case OneOf(options) => s in options)
    case Unsigned(u) =>
      (match rule
       case Required => u != 0
       case Min(n) => u >= n
       case Max(n) => u <= n
       case Gte(n) => u >= n
       case OneOf(options) => Convert.FormatInt(u) in options)
  }

  predicate FieldValid(f: Field)
  {
    forall j :: 0 <= j < |f.rules| ==> Satisfies(f.value, f.rules[j])
  }

  predicate AllValid(fields: seq<Field>)
  {
    forall i :: 0 <= i < |fields| ==> FieldValid(fields[i])
  }

  /** `oneof=0 1`. */
  const StateOptions: seq<string> := ["0", "1"]

  /** `required,min=3,max=100`. */
  const NameRules: seq<Rule> := [Required, Min(3), Max(100)]

  /** `required,gte=1`. */
  const IdRules: seq<Rule> := [Required, Gte(1)]

  /** The `default=1` of the `state` form binding, for an absent string parameter. */
  function BindState(raw: Option<string>): string
  {
    raw.GetOr("1")
  }

  /** The `default=1` of the `state` form binding, for an absent uint8 parameter. */
  function BindStateNumber(raw: Option<uint8>): uint8
  {
    raw.GetOr(1)
  }

  datatype CountArticleRequest = CountArticleRequest(name: string, state: uint8) {
    function Fields(): seq<Field>
    {
      [Field(Text(name), [Max(100)]), Field(Unsigned(state), [OneOf(StateOptions)])]
    }
    predicate Valid()
    {
      AllValid(Fields())
    }
  }

  datatype ArticleListRequest = ArticleListRequest(name: string, state: uint8) {
    function Fields(): seq<Field>
    {
      [Field(Text(name), [Max(100)]), Field(Unsigned(state), [OneOf(StateOptions)])]
    }
    predicate Valid()
    {
      AllValid(Fields())
    }
  }

  datatype CreateArticleRequest = CreateArticleRequest(name: string, createdBy: string, state: string) {
    function Fields(): seq<Field>
    {
      [Field(Text(name), NameRules), Field(Text(createdBy), NameRules), Field(Text(state), [OneOf(StateOptions)])]
    }
    predicate Valid()
    {
      AllValid(Fields())
    }
  }

  datatype UpdateArticleRequest = UpdateArticleRequest(id: string, name: string, state: string, modifiedBy: string) {
    function Fields(): seq<Field>
    {
      [ Field(Text(id), IdRules), Field(Text(name), NameRules),
        Field(Text(state), [OneOf(StateOptions)]), Field(Text(modifiedBy), NameRules) ]
    }
    predicate Valid()
    {
      AllValid(Fields())
    }
  }

  datatype DeleteArticleRequest = DeleteArticleRequest(id: string) {
    function Fields(): seq<Field>
    {
      [Field(Text(id), IdRules)]
    }
    predicate Valid()
    {
      AllValid(Fields())
    }
  }

  // ---------------------------------------------------------------------------
  // What the tags mean

  lemma NameRulesMeaning(s: string)
    ensures FieldValid(Field(Text(s), NameRules)) <==> 3 <= |s| <= 100
  {
    assert Satisfies(Text(s), NameRules[1]) <==> |s| >= 3;
    assert Satisfies(Text(s), NameRules[2]) <==> |s| <= 100;
  }

  lemma IdRulesMeaning(s: string)
    ensures FieldValid(Field(Text(s), IdRules)) <==> s != ""
  {
    assert Satisfies(Text(s), IdRules[0]) <==> s != "";
  }

  lemma OneRule(v: FieldValue, rule: Rule)
    ensures FieldValid(Field(v, [rule])) <==> Satisfies(v, rule)
  {
    assert [rule][0] == rule;
  }

  lemma StateTextMeaning(s: string)
    ensures FieldValid(Field(Text(s), [OneOf(StateOptions)])) <==> s == "0" || s == "1"
  {
    OneRule(Text(s), OneOf(StateOptions));
  }

  /** The decimal rendering of a number is "0" or "1" exactly for 0 and 1. */
  lemma StateNumberMeaning(u: uint8)
    ensures FieldValid(Field(Unsigned(u), [OneOf(StateOptions)])) <==> u == 0 || u == 1
  {
    OneRule(Unsigned(u), OneOf(StateOptions));
    var text := Convert.FormatInt(u);
    assert Convert.FormatInt(0) == "0";
    assert Convert.FormatInt(1) == "1";
    if text == "0" {
      assert Convert.Magnitude(text) == "0";
      assert Convert.DigitsValue("0") == Convert.DigitsValue("") * 10 + 0;
    } else if text == "1" {
      assert Convert.Magnitude(text) == "1";
      assert Convert.DigitsValue("1") == Convert.DigitsValue("") * 10 + 1;
    }
  }

  lemma TwoFields(a: Field, b: Field)
    ensures AllValid([a, b]) <==> FieldValid(a) && FieldValid(b)
  {
    assert [a, b][0] == a && [a, b][1] == b;
  }

  /** The count and list filters: a name of at most 100 characters and state 0 or 1. */
  lemma CountArticleValid(r: CountArticleRequest)
    ensures r.Valid() <==> |r.name| <= 100 && (r.state == 0 || r.state == 1)
  {
    TwoFields(r.Fields()[0], r.Fields()[1]);
    StateNumberMeaning(r.state);
    OneRule(Text(r.name), Max(100));
  }

  lemma ArticleListValid(r: ArticleListRequest)
    ensures r.Valid() <==> |r.name| <= 100 && (r.state == 0 || r.state == 1)
  {
    TwoFields(r.Fields()[0], r.Fields()[1]);
    StateNumberMeaning(r.state);
    OneRule(Text(r.name), Max(100));
  }

  /** Creation needs a name and a creator of 3 to 100 characters and the state text "0" or "1". */
  lemma CreateArticleValid(r: CreateArticleRequest)
    ensures r.Valid() <==>
      3 <= |r.name| <= 100 && 3 <= |r.createdBy| <= 100 && (r.state == "0" || r.state == "1")
  {
    var fs := r.Fields();
    NameRulesMeaning(r.name);
    NameRulesMeaning(r.createdBy);
    StateTextMeaning(r.state);
    assert AllValid(fs) <==> FieldValid(fs[0]) && FieldValid(fs[1]) && FieldValid(fs[2]);
  }

  /**
   * Update needs a non-empty id (`gte=1` on a string bounds its length, not
   * its value), name and modifier of 3 to 100 characters, and state "0" or "1".
   */
  lemma UpdateArticleValid(r: UpdateArticleRequest)
    ensures r.Valid() <==>
      r.id != "" && 3 <= |r.name| <= 100 && (r.state == "0" || r.state == "1") && 3 <= |r.modifiedBy| <= 100
  {
    var fs := r.Fields();
    IdRulesMeaning(r.id);
    NameRulesMeaning(r.name);
    StateTextMeaning(r.state);
    NameRulesMeaning(r.modifiedBy);
    assert AllValid(fs) <==> FieldValid(fs[0]) && FieldValid(fs[1]) && FieldValid(fs[2]) && FieldValid(fs[3]);
  }

  lemma DeleteArticleValid(r: DeleteArticleRequest)
    ensures r.Valid() <==> r.id != ""
  {
    IdRulesMeaning(r.id);
    assert AllValid(r.Fields()) <==> FieldValid(r.Fields()[0]);
  }

  /** Because `gte=1` is a length bound, the id "0" passes validation. */
  lemma ZeroIdPasses()
    ensures DeleteArticleRequest("0").Valid()
  {
    DeleteArticleValid(DeleteArticleRequest("0"));
  }

  /** An absent `state` binds to its default 1, which satisfies `oneof=0 1`. */
  lemma DefaultStateIsValid()
    ensures BindState(None) == "1"
    ensures FieldValid(Field(Text(BindState(None)), [OneOf(StateOptions)]))
    ensures FieldValid(Field(Unsigned(BindStateNumber(None)), [OneOf(StateOptions)]))
  {
    StateTextMeaning(BindState(None));
    StateNumberMeaning(BindStateNumber(None));
  }
}
