/** The heat-pump models the binding knows (PumpModel.java) and the lookup of
    a model by its name. */
module PumpModels {
  import opened Common
  import opened Text

  datatype PumpModel = F1145 | F1245

  /** The enum's values in declaration order. */
  const Values: seq<PumpModel> := [F1145, F1245]

  /** toString(): the name the model was declared with. */
  function Name(m: PumpModel): (s: string)
    ensures |s| == 5 && s[0] == 'F'
  {
    match m
    case F1145 => "F1145"
    case F1245 => "F1245"
  }

  /** The first of `models` whose name equals `name` ignoring case. */
  function FirstMatch(models: seq<PumpModel>, name: string): (r: Option<PumpModel>)
    ensures r.Some? ==> r.value in models && EqualsIgnoreCase(Name(r.value), name)
    ensures r.None? ==> forall m :: m in models ==> !EqualsIgnoreCase(Name(m), name)
  {
    if models == [] then None
    else if EqualsIgnoreCase(Name(models[0]), name) then Some(models[0])
    else FirstMatch(models[1..], name)
  }

  /** getPumpModel(name): the first declared model whose name matches
      ignoring case; IllegalArgumentException "Not valid pump model" when
      none does. */
  function GetPumpModel(name: string): (r: Result<PumpModel, Error>)
    ensures r.Ok? ==> EqualsIgnoreCase(Name(r.value), name)
    ensures r.Err? ==> r.error == IllegalArgument("Not valid pump model")
    ensures r.Err? <==> forall m :: !EqualsIgnoreCase(Name(m), name)
  {
    match FirstMatch(Values, name)
    case Some(m) => Ok(m)
    case None => assert Values[0] == F1145 && Values[1] == F1245; Err(IllegalArgument("Not valid pump model"))
  }

  /** No string matches the names of both models, so the declaration-order
      search can only ever find one candidate. */
  lemma NamesDistinctIgnoringCase(name: string)
    ensures !(EqualsIgnoreCase(Name(F1145), name) && EqualsIgnoreCase(Name(F1245), name))
  {
    if EqualsIgnoreCase(Name(F1145), name) && EqualsIgnoreCase(Name(F1245), name) {
      IgnoreCaseCharsAgree(Name(F1145)[2], name[2]);
      IgnoreCaseCharsAgree(Name(F1245)[2], name[2]);
      assert false;
    }
  }

  /** A name selects a model exactly when it equals that model's name
      ignoring case. */
  lemma GetPumpModelMatches(name: string, m: PumpModel)
    ensures GetPumpModel(name) == Ok(m) <==> EqualsIgnoreCase(Name(m), name)
  {
    NamesDistinctIgnoringCase(name);
  }

  /** toString followed by getPumpModel gives the model back. */
  lemma GetPumpModelOfName(m: PumpModel)
    ensures GetPumpModel(Name(m)) == Ok(m)
  {
    GetPumpModelMatches(Name(m), m);
  }

  /** The recorded cases: "F1245" and "F1145" select their models, lower
      case works too, and "XXXX" is rejected with "Not valid pump model". */
  lemma GetPumpModelExamples()
    ensures GetPumpModel("F1245") == Ok(F1245)
    ensures GetPumpModel("F1145") == Ok(F1145)
    ensures GetPumpModel("f1245") == Ok(F1245)
    ensures GetPumpModel("XXXX") == Err(IllegalArgument("Not valid pump model"))
  {
    GetPumpModelOfName(F1245);
    GetPumpModelOfName(F1145);
    GetPumpModelMatches("f1245", F1245);
    assert EqualsIgnoreCase(Name(F1245), "f1245");
  }
}
