/** The card the alarm report shows for one alarm: a mutable bean whose
    priorityColor is kept in step with priority by the priority setter. */
module ReportModel {
  import opened Wrappers
  import opened Text

  /** Every field of an AlarmReportData at one moment. */
  datatype AlarmView = AlarmView(
    componentName: Option<string>,
    componentType: Option<string>,
    test: Option<string>,
    measure: Option<string>,
    priority: Option<string>,
    priorityColor: Option<string>,
    layer: Option<string>,
    description: Option<string>,
    startTime: Option<string>,
    duration: Option<string>,
    info: Option<string>,
    repeatCount: int,
    measureGraphBase64: Option<string>,
    interpretation: Option<string>,
    interpretationDescription: Option<string>,
    interpretationUnit: Option<string>,
    interpretationText: Option<string>,
    aiAnalysis: Option<string>)

  /** A freshly constructed bean: every reference field null, the int field 0. */
  const Blank: AlarmView :=
    AlarmView(None, None, None, None, None, None, None, None, None, None, None,
              0, None, None, None, None, None, None)

  /** The Bootstrap colour class of a priority, chosen after lower-casing it. */
  function Badge(priority: Option<string>): (r: string)
    ensures r in {"danger", "warning", "eg-minor", "secondary"}
    ensures r == "danger" <==> priority.Some? && ToLower(priority.value) == "critical"
    ensures r == "eg-minor" <==> priority.Some? && ToLower(priority.value) == "minor"
    ensures r == "warning" <==> priority.Some? && ToLower(priority.value) in {"major", "warning"}
    ensures priority.None? ==> r == "secondary"
  {
    if priority.None? then "secondary"
    else
      var p := ToLower(priority.value);
      if p == "critical" then "danger"
      else if p == "major" then "warning"
      else if p == "minor" then "eg-minor"
      else if p == "warning" then "warning"
      else "secondary"
  }

  /** Two spellings of a priority that differ only in case get the same colour. */
  lemma BadgeIgnoresCase(p: string, q: string)
    requires EqualsIgnoreCase(p, q)
    ensures Badge(Some(p)) == Badge(Some(q))
  {
    assert ToLower(p) == ToLower(q);
  }

  /** The colour is unset only while the priority has never been set; after that
      it is the badge of the current priority. */
  predicate ColorInStep(v: AlarmView) {
    (v.priority.None? && v.priorityColor.None?) || v.priorityColor == Some(Badge(v.priority))
  }

  class AlarmReportData {
    var componentName: Option<string>
    var componentType: Option<string>
    var test: Option<string>
    var measure: Option<string>
    var priority: Option<string>
    var priorityColor: Option<string>
    var layer: Option<string>
    var description: Option<string>
    var startTime: Option<string>
    var duration: Option<string>
    var info: Option<string>
    var repeatCount: int
    var measureGraphBase64: Option<string>
    var interpretation: Option<string>
    var interpretationDescription: Option<string>
    var interpretationUnit: Option<string>
    var interpretationText: Option<string>
    var aiAnalysis: Option<string>

    function View(): AlarmView
      reads this
    {
      AlarmView(componentName, componentType, test, measure, priority, priorityColor,
                layer, description, startTime, duration, info, repeatCount,
                measureGraphBase64, interpretation, interpretationDescription,
                interpretationUnit, interpretationText, aiAnalysis)
    }

    predicate Valid()
      reads this
    {
      ColorInStep(View())
    }

    constructor ()
      ensures View() == Blank
      ensures Valid()
    {
      componentName, componentType, test, measure := None, None, None, None;
      priority, priorityColor, layer, description := None, None, None, None;
      startTime, duration, info, repeatCount := None, None, None, 0;
      measureGraphBase64, interpretation, interpretationDescription := None, None, None;
      interpretationUnit, interpretationText, aiAnalysis := None, None, None;
    }

    /** The only setter that touches priorityColor. */
    method SetPriority(p: Option<string>)
      modifies this
      ensures View() == old(View()).(priority := p, priorityColor := Some(Badge(p)))
      ensures Valid()
    {
      priority := p;
      priorityColor := Some(Badge(p));
    }

    method SetComponentName(x: Option<string>)
      modifies this
      ensures View() == old(View()).(componentName := x)
      ensures old(Valid()) ==> Valid()
    {
      componentName := x;
    }

    method SetComponentType(x: Option<string>)
      modifies this
      ensures View() == old(View()).(componentType := x)
      ensures old(Valid()) ==> Valid()
    {
      componentType := x;
    }

    method SetTest(x: Option<string>)
      modifies this
      ensures View() == old(View()).(test := x)
      ensures old(Valid()) ==> Valid()
    {
      test := x;
    }

    method SetMeasure(x: Option<string>)
      modifies this
      ensures View() == old(View()).(measure := x)
      ensures old(Valid()) ==> Valid()
    {
      measure := x;
    }

    method SetLayer(x: Option<string>)
      modifies this
      ensures View() == old(View()).(layer := x)
      ensures old(Valid()) ==> Valid()
    {
      layer := x;
    }

    method SetDescription(x: Option<string>)
      modifies this
      ensures View() == old(View()).(description := x)
      ensures old(Valid()) ==> Valid()
    {
      description := x;
    }

    method SetStartTime(x: Option<string>)
      modifies this
      ensures View() == old(View()).(startTime := x)
      ensures old(Valid()) ==> Valid()
    {
      startTime := x;
    }

    method SetDuration(x: Option<string>)
      modifies this
      ensures View() == old(View()).(duration := x)
      ensures old(Valid()) ==> Valid()
    {
      duration := x;
    }

    method SetInfo(x: Option<string>)
      modifies this
      ensures View() == old(View()).(info := x)
      ensures old(Valid()) ==> Valid()
    {
      info := x;
    }

    method SetRepeatCount(x: int)
      modifies this
      ensures View() == old(View()).(repeatCount := x)
      ensures old(Valid()) ==> Valid()
    {
      repeatCount := x;
    }

    method SetMeasureGraphBase64(x: Option<string>)
      modifies this
      ensures View() == old(View()).(measureGraphBase64 := x)
      ensures old(Valid()) ==> Valid()
    {
      measureGraphBase64 := x;
    }

    method SetInterpretation(x: Option<string>)
      modifies this
      ensures View() == old(View()).(interpretation := x)
      ensures old(Valid()) ==> Valid()
    {
      interpretation := x;
    }

    method SetInterpretationDescription(x: Option<string>)
      modifies this
      ensures View() == old(View()).(interpretationDescription := x)
      ensures old(Valid()) ==> Valid()
    {
      interpretationDescription := x;
    }

    method SetInterpretationUnit(x: Option<string>)
      modifies this
      ensures View() == old(View()).(interpretationUnit := x)
      ensures old(Valid()) ==> Valid()
    {
      interpretationUnit := x;
    }

    method SetInterpretationText(x: Option<string>)
      modifies this
      ensures View() == old(View()).(interpretationText := x)
      ensures old(Valid()) ==> Valid()
    {
      interpretationText := x;
    }

    method SetAiAnalysis(x: Option<string>)
      modifies this
      ensures View() == old(View()).(aiAnalysis := x)
      ensures old(Valid()) ==> Valid()
    {
      aiAnalysis := x;
    }
  }
}
