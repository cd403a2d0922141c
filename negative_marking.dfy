/** The negative-marking calculator: four number fields (questions attempted, wrong answers, marks
    per correct answer, penalty per wrong answer), a calculation that is refused when there are
    more wrong answers than attempted ones, a reset, and the "auto mode" in which every edit of a
    field recalculates. Numbers are reals; the display holds the unrounded values. */
module NegativeMarking {
  import opened Dom

  /** What `parseFloat` makes of a field: a number, or NaN for an empty or non-numeric field. */
  datatype Reading = Number(value: real) | NaN

  /** `parseFloat(field.value) || 0`. */
  function OrZero(r: Reading): (v: real)
    ensures r.NaN? ==> v == 0.0
    ensures r.Number? ==> v == r.value
  {
    match r
    case Number(v) => v
    case NaN => 0.0
  }

  datatype Inputs = Inputs(total: Reading, wrong: Reading, marksPerCorrect: Reading, penaltyPerWrong: Reading)

  datatype Field = Total | Wrong | MarksPerCorrect | PenaltyPerWrong

  /** The inputs after the user changed one field. */
  function WithField(inputs: Inputs, field: Field, r: Reading): Inputs {
    match field
    case Total => inputs.(total := r)
    case Wrong => inputs.(wrong := r)
    case MarksPerCorrect => inputs.(marksPerCorrect := r)
    case PenaltyPerWrong => inputs.(penaltyPerWrong := r)
  }

  datatype Score = Score(finalScore: real, correct: real, wrong: real, accuracy: real)

  datatype Outcome = Rejected | Computed(score: Score)

  /** The accuracy percentage: none without attempts, otherwise the share of correct answers. */
  function Accuracy(total: real, correct: real): (a: real)
    ensures total <= 0.0 ==> a == 0.0
    ensures total > 0.0 ==> a * total == correct * 100.0
  {
    if total > 0.0 then correct / total * 100.0 else 0.0
  }

  /** The arithmetic of `calculate`: refused exactly when wrong exceeds total; otherwise the
      attempts split into correct and wrong ones, the score is what the correct ones earn minus
      what the wrong ones cost, and the accuracy is the correct share of the attempts. */
  function Evaluate(inputs: Inputs): (o: Outcome)
    ensures o.Rejected? <==> OrZero(inputs.wrong) > OrZero(inputs.total)
    ensures o.Computed? ==>
      o.score.correct + o.score.wrong == OrZero(inputs.total)
      && o.score.wrong == OrZero(inputs.wrong)
      && o.score.correct >= 0.0
    ensures o.Computed? ==>
      o.score.finalScore == o.score.correct * OrZero(inputs.marksPerCorrect)
        - o.score.wrong * OrZero(inputs.penaltyPerWrong)
    ensures o.Computed? ==> o.score.accuracy == Accuracy(OrZero(inputs.total), o.score.correct)
  {
    var total := OrZero(inputs.total);
    var wrong := OrZero(inputs.wrong);
    var marksPerCorrect := OrZero(inputs.marksPerCorrect);
    var penaltyPerWrong := OrZero(inputs.penaltyPerWrong);
    if wrong > total then Rejected
    else
      var correct := total - wrong;
      Computed(Score(correct * marksPerCorrect - wrong * penaltyPerWrong, correct, wrong, Accuracy(total, correct)))
  }

  /** Only the numbers the fields read as matter: an empty or non-numeric field counts as 0. */
  lemma EvaluateReadsNumbers(a: Inputs, b: Inputs)
    requires OrZero(a.total) == OrZero(b.total) && OrZero(a.wrong) == OrZero(b.wrong)
    requires OrZero(a.marksPerCorrect) == OrZero(b.marksPerCorrect)
    requires OrZero(a.penaltyPerWrong) == OrZero(b.penaltyPerWrong)
    ensures Evaluate(a) == Evaluate(b)
  {
  }

  /** With no negative wrong count the accuracy is a percentage. */
  lemma AccuracyInRange(total: real, wrong: real)
    requires 0.0 <= wrong <= total
    ensures 0.0 <= Accuracy(total, total - wrong) <= 100.0
  {
    if total > 0.0 {
      var a := Accuracy(total, total - wrong);
      assert a * total == (total - wrong) * 100.0;
      assert a * total <= 100.0 * total;
      assert 0.0 <= a * total;
    }
  }

  /** The check lets a negative wrong count through, and the accuracy then exceeds 100. */
  lemma NegativeWrongOverstatesAccuracy(total: real, wrong: real)
    requires total > 0.0 && wrong < 0.0
    ensures Accuracy(total, total - wrong) > 100.0
  {
    var a := Accuracy(total, total - wrong);
    assert a * total == (total - wrong) * 100.0;
    assert a * total > 100.0 * total;
  }

  lemma AccuracyExamples()
    ensures Accuracy(0.0, 0.0) == 0.0
    ensures Accuracy(10.0, 7.0) == 70.0
  {
  }

  /** The four readouts (`#finalScore`, `#correctCount`, `#wrongCount`, `#accuracyVal`): as the
      markup has them until the first calculation, then the last computed score. */
  datatype Readout = Initial | Showing(score: Score)

  /** Everything the calculator reads or writes. */
  datatype CalcState = CalcState(inputs: Inputs, readout: Readout, autoMode: bool,
                                 resultBox: Display, calculateButton: Display)

  /** A refused calculation changes nothing; an accepted one shows the score, shows the result
      box (hiding the button the first time), and turns auto mode on. */
  function Calculated(v: CalcState): (r: CalcState)
    ensures r.inputs == v.inputs
    ensures Evaluate(v.inputs).Rejected? ==> r == v
    ensures Evaluate(v.inputs).Computed? ==> r.autoMode && r.readout == Showing(Evaluate(v.inputs).score)
    ensures Coherent(v) ==> Coherent(r)
  {
    match Evaluate(v.inputs)
    case Rejected => v
    case Computed(score) =>
      v.(readout := Showing(score), autoMode := true, resultBox := Block,
         calculateButton := if v.resultBox != Block then Hidden else v.calculateButton)
  }

  /** `resetTool`: the form's own defaults come back, then the coefficients are set to 4 and 1;
      auto mode ends, the result box is hidden and the button shown. The readouts keep their text. */
  function AfterReset(v: CalcState, formDefaults: Inputs): (r: CalcState)
    ensures !r.autoMode && Coherent(r)
    ensures r.resultBox == Hidden && r.calculateButton == Block
    ensures r.readout == v.readout
    ensures r.inputs.total == formDefaults.total && r.inputs.wrong == formDefaults.wrong
  {
    CalcState(formDefaults.(marksPerCorrect := Number(4.0), penaltyPerWrong := Number(1.0)),
              v.readout, false, Hidden, Block)
  }

  /** An `input` event: the edited field takes its new value, and the calculator recalculates
      when it is in auto mode. */
  function AfterInput(v: CalcState, field: Field, r: Reading): (w: CalcState)
    ensures w.inputs == WithField(v.inputs, field, r)
    ensures w.autoMode == v.autoMode || Evaluate(w.inputs).Computed?
    ensures Coherent(v) ==> Coherent(w)
  {
    var edited := v.(inputs := WithField(v.inputs, field, r));
    if edited.autoMode then Calculated(edited) else edited
  }

  /** The result box is showing whenever auto mode is on, and the button is hidden whenever the
      result box shows. */
  predicate Coherent(v: CalcState) {
    (v.autoMode ==> v.resultBox == Block) && (v.resultBox == Block ==> v.calculateButton == Hidden)
  }

  lemma CalculateRejectedChangesNothing(v: CalcState)
    requires OrZero(v.inputs.wrong) > OrZero(v.inputs.total)
    ensures Calculated(v) == v
  {
  }

  lemma CalculateAccepted(v: CalcState)
    requires OrZero(v.inputs.wrong) <= OrZero(v.inputs.total)
    ensures Calculated(v).autoMode && Calculated(v).resultBox == Block
    ensures Calculated(v).readout == Showing(Evaluate(v.inputs).score)
    ensures Calculated(v).inputs == v.inputs
    ensures Coherent(v) ==> Calculated(v).calculateButton == Hidden
  {
  }

  /** Before the first accepted calculation an edit changes the field and nothing else. */
  lemma InputOutsideAutoMode(v: CalcState, field: Field, r: Reading)
    requires !v.autoMode
    ensures AfterInput(v, field, r) == v.(inputs := WithField(v.inputs, field, r))
  {
  }

  /** In auto mode an edit recalculates from the edited fields: an accepted one shows the new
      score, a refused one leaves the display as it was. */
  lemma InputInAutoMode(v: CalcState, field: Field, r: Reading)
    requires v.autoMode
    ensures var edited := WithField(v.inputs, field, r);
      match Evaluate(edited)
      case Rejected => AfterInput(v, field, r) == v.(inputs := edited)
      case Computed(score) =>
        AfterInput(v, field, r).readout == Showing(score) && AfterInput(v, field, r).autoMode
  {
  }

  lemma ResetIdempotent(v: CalcState, formDefaults: Inputs)
    ensures AfterReset(AfterReset(v, formDefaults), formDefaults) == AfterReset(v, formDefaults)
    ensures !AfterReset(v, formDefaults).autoMode && Coherent(AfterReset(v, formDefaults))
    ensures AfterReset(v, formDefaults).resultBox == Hidden
    ensures AfterReset(v, formDefaults).calculateButton == Block
    ensures AfterReset(v, formDefaults).inputs.marksPerCorrect == Number(4.0)
    ensures AfterReset(v, formDefaults).inputs.penaltyPerWrong == Number(1.0)
  {
  }

  /** Every event keeps the calculator coherent. */
  lemma CoherentPreserved(v: CalcState, field: Field, r: Reading, formDefaults: Inputs)
    requires Coherent(v)
    ensures Coherent(Calculated(v))
    ensures Coherent(AfterInput(v, field, r))
    ensures Coherent(AfterReset(v, formDefaults))
  {
  }

  /** The calculator widget, with its fields written step by step as the handlers do. */
  class Calculator {
    var inputs: Inputs
    var readout: Readout
    var autoMode: bool
    var resultBox: Display
    var calculateButton: Display

    function State(): CalcState
      reads this
    {
      CalcState(inputs, readout, autoMode, resultBox, calculateButton)
    }

    /** The page as loaded: the fields and displays as the markup has them, auto mode off. */
    constructor (inputs: Inputs, resultBox: Display, calculateButton: Display)
      ensures State() == CalcState(inputs, Initial, false, resultBox, calculateButton)
    {
      this.inputs := inputs;
      readout := Initial;
      autoMode := false;
      this.resultBox := resultBox;
      this.calculateButton := calculateButton;
    }

    /** `calculate`, run by the form's submit. */
    method Calculate()
      modifies this
      ensures State() == Calculated(old(State()))
    {
      var total := OrZero(inputs.total);
      var wrong := OrZero(inputs.wrong);
      var marksPerCorrect := OrZero(inputs.marksPerCorrect);
      var penaltyPerWrong := OrZero(inputs.penaltyPerWrong);
      if wrong > total {
        return;
      }
      var correct := total - wrong;
      var positiveScore := correct * marksPerCorrect;
      var negativeScore := wrong * penaltyPerWrong;
      var finalScore := positiveScore - negativeScore;
      var accuracy := 0.0;
      if total > 0.0 {
        accuracy := correct / total * 100.0;
      }
      assert Evaluate(inputs) == Computed(Score(finalScore, correct, wrong, accuracy));
      readout := Showing(Score(finalScore, correct, wrong, accuracy));
      if resultBox != Block {
        resultBox := Block;
        calculateButton := Hidden;
      }
      autoMode := true;
    }

    /** `resetTool`, run by the reset button; `formDefaults` are the values the markup gives the
        fields. */
    method Reset(formDefaults: Inputs)
      modifies this
      ensures State() == AfterReset(old(State()), formDefaults)
    {
      inputs := formDefaults;
      autoMode := false;
      resultBox := Hidden;
      calculateButton := Block;
      inputs := inputs.(marksPerCorrect := Number(4.0));
      inputs := inputs.(penaltyPerWrong := Number(1.0));
    }

    /** The user edits one field; the input listener recalculates only in auto mode. */
    method OnInput(field: Field, r: Reading)
      modifies this
      ensures State() == AfterInput(old(State()), field, r)
    {
      inputs := WithField(inputs, field, r);
      if autoMode {
        Calculate();
      }
    }
  }
}
