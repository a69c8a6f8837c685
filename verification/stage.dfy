/** The four lifecycle points at which session hooks run, with their string
    backing values. */
module SessionStage {
  import opened Wrappers

  datatype Stage = AfterLoad | AfterAction | BeforeSave | AfterSave

  /** Every stage, in declaration order. */
  const AllStages: seq<Stage> := [AfterLoad, AfterAction, BeforeSave, AfterSave]

  /** The enum's backing value. */
  function ToValue(s: Stage): string {
    match s
    case AfterLoad => "after_load"
    case AfterAction => "after_action"
    case BeforeSave => "before_save"
    case AfterSave => "after_save"
  }

  /** The enum's `tryFrom`: the stage whose backing value is `v`, if any. */
  function FromValue(v: string): (r: Option<Stage>)
    ensures r.Some? ==> ToValue(r.value) == v
    ensures r.None? ==> forall s: Stage :: ToValue(s) != v
  {
    if v == "after_load" then Some(AfterLoad)
    else if v == "after_action" then Some(AfterAction)
    else if v == "before_save" then Some(BeforeSave)
    else if v == "after_save" then Some(AfterSave)
    else None
  }

  /** There are exactly four stages and `AllStages` lists each once. */
  lemma ExactlyFourStages()
    ensures |AllStages| == 4
    ensures forall s: Stage :: s in AllStages
    ensures forall i, j :: 0 <= i < j < |AllStages| ==> AllStages[i] != AllStages[j]
  {
    forall s: Stage ensures s in AllStages {
      match s
      case AfterLoad => assert AllStages[0] == s;
      case AfterAction => assert AllStages[1] == s;
      case BeforeSave => assert AllStages[2] == s;
      case AfterSave => assert AllStages[3] == s;
    }
  }

  /** Distinct stages have distinct backing values. */
  lemma ToValueInjective(a: Stage, b: Stage)
    ensures ToValue(a) == ToValue(b) <==> a == b
  {
  }

  /** Reading back a stage's own backing value yields that stage. */
  lemma FromToValue(s: Stage)
    ensures FromValue(ToValue(s)) == Some(s)
  {
  }
}
