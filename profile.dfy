/**
 * The profile page of `pages/profile.py`: the saved profile record and the energy
 * figures shown beside it (BMI, the Mifflin-St Jeor basal metabolic rate, the daily
 * energy need after the activity factor, and the goal-adjusted target).
 */
module Profile {
  import opened Wrappers
  import Text

  /** The values of the form when "Save Profile" is pressed. */
  datatype Form = Form(name: string, age: real, gender: string, height: real, weight: real,
                       activity: string, goal: string, dietType: string)

  /**
   * A profile dict: the one the form saves, or one read from `user_profile.json`,
   * where any of the eight keys may be missing.
   */
  datatype StoredProfile = StoredProfile(
    name: Option<string>, age: Option<real>, gender: Option<string>, height: Option<real>,
    weight: Option<real>, activity: Option<string>, goal: Option<string>, dietType: Option<string>)

  /** `{}`: no saved profile, or one that could not be read. */
  const EmptyProfile := StoredProfile(None, None, None, None, None, None, None, None)

  /** The dict has at least one of the keys (a non-empty dict is truthy). */
  predicate NonEmpty(p: StoredProfile) {
    p.name.Some? || p.age.Some? || p.gender.Some? || p.height.Some? || p.weight.Some?
    || p.activity.Some? || p.goal.Some? || p.dietType.Some?
  }

  /**
   * Lines 44-58: the saved record holds exactly the form's eight values; the file and
   * the session both get it, whatever was saved before.
   */
  function SaveProfile(prior: StoredProfile, form: Form): (p: StoredProfile)
    ensures NonEmpty(p)
    ensures p.name == Some(form.name) && p.age == Some(form.age) && p.gender == Some(form.gender)
    ensures p.height == Some(form.height) && p.weight == Some(form.weight)
    ensures p.activity == Some(form.activity) && p.goal == Some(form.goal)
    ensures p.dietType == Some(form.dietType)
  {
    StoredProfile(Some(form.name), Some(form.age), Some(form.gender), Some(form.height),
                  Some(form.weight), Some(form.activity), Some(form.goal), Some(form.dietType))
  }

  /** Saving replaces the prior record wholesale: nothing of it survives. */
  lemma SaveReplacesWholesale(p1: StoredProfile, p2: StoredProfile, form: Form)
    ensures SaveProfile(p1, form) == SaveProfile(p2, form)
  {
  }

  /**
   * Lines 61-62: the profile the summary describes, the session's one first, else the
   * loaded one when it is non-empty; `None` when no summary is shown.
   */
  function SummaryProfile(session: Option<StoredProfile>, loaded: StoredProfile): (p: Option<StoredProfile>)
    ensures p.None? <==> session.None? && !NonEmpty(loaded)
    ensures session.Some? ==> p == session
    ensures session.None? && NonEmpty(loaded) ==> p == Some(loaded)
  {
    if session.Some? then session
    else if NonEmpty(loaded) then Some(loaded)
    else None
  }

  /** The four figures of the summary. */
  datatype Metrics = Metrics(bmi: real, bmr: real, tdee: real, target: real)

  /** `ui.get('gender', 'male').lower() == "male"`. */
  predicate IsMale(gender: Option<string>) {
    Text.Lower(gender.GetOr("male")) == "male"
  }

  /** Lines 77 and 79: Mifflin-St Jeor, +5 for men and -161 otherwise. */
  function Bmr(weight: real, height: real, age: real, male: bool): real {
    10.0 * weight + 6.25 * height - 5.0 * age + (if male then 5.0 else -161.0)
  }

  /** Line 80: the activity factor, 1.55 for an unknown or missing level. */
  function ActivityFactor(activity: Option<string>): (f: real)
    ensures 1.2 <= f <= 1.725
    ensures activity == Some("Sedentary") ==> f == 1.2
    ensures activity == Some("Light") ==> f == 1.375
    ensures activity == Some("Very Active") ==> f == 1.725
    ensures activity != Some("Sedentary") && activity != Some("Light") && activity != Some("Very Active")
            ==> f == 1.55
  {
    var level := activity.GetOr("Moderate");
    var factors := map["Sedentary" := 1.2, "Light" := 1.375, "Moderate" := 1.55, "Very Active" := 1.725];
    if level in factors then factors[level] else 1.55
  }

  /** Lines 82-87: the target calories for a goal. */
  function Target(tdee: real, goal: Option<string>): (t: real)
    ensures goal == Some("Weight Loss") ==> t == tdee * 0.85
    ensures goal == Some("Weight Gain") ==> t == tdee * 1.1
    ensures goal != Some("Weight Loss") && goal != Some("Weight Gain") ==> t == tdee
  {
    if goal == Some("Weight Loss") then tdee * 0.85
    else if goal == Some("Weight Gain") then tdee * 1.1
    else tdee
  }

  /** Line 74: weight over the square of the height in metres; `None` for a zero height. */
  function Bmi(weight: real, height: real): (b: Option<real>)
    ensures b.None? <==> height == 0.0
    ensures b.Some? ==> b.value * ((height / 100.0) * (height / 100.0)) == weight
  {
    if height == 0.0 then None
    else
      var metres := height / 100.0;
      assert metres * metres > 0.0 by {
        if metres < 0.0 { assert (-metres) * (-metres) > 0.0; }
      }
      Some(weight / (metres * metres))
  }

  /**
   * Lines 74-87 with the defaults weight 70, height 170, age 25, gender "male",
   * activity "Moderate"; `None` when a stored height of 0 makes line 74 divide by zero.
   */
  function ComputeMetrics(ui: StoredProfile): (m: Option<Metrics>)
    ensures m.None? <==> ui.height == Some(0.0)
    ensures m.Some? ==>
              var w := ui.weight.GetOr(70.0);
              var h := ui.height.GetOr(170.0);
              && m.value.bmi * ((h / 100.0) * (h / 100.0)) == w
              && m.value.bmr == Bmr(w, h, ui.age.GetOr(25.0), Text.Lower(ui.gender.GetOr("male")) == "male")
              && m.value.tdee == m.value.bmr * ActivityFactor(ui.activity)
              && m.value.target == Target(m.value.tdee, ui.goal)
  {
    var w := ui.weight.GetOr(70.0);
    var h := ui.height.GetOr(170.0);
    var a := ui.age.GetOr(25.0);
    match Bmi(w, h)
    case None => None
    case Some(bmi) =>
      var bmr := Bmr(w, h, a, IsMale(ui.gender));
      var tdee := bmr * ActivityFactor(ui.activity);
      Some(Metrics(bmi, bmr, tdee, Target(tdee, ui.goal)))
  }

  // ---------------------------------------------------------------------------
  // What the figures promise
  // ---------------------------------------------------------------------------

  /** For the same body, a man's BMR exceeds anyone else's by exactly 166 kcal. */
  lemma MaleGap(weight: real, height: real, age: real)
    ensures Bmr(weight, height, age, true) - Bmr(weight, height, age, false) == 166.0
  {
  }

  /** BMR grows with weight and height and falls with age. */
  lemma BmrMonotone(w1: real, w2: real, h1: real, h2: real, a1: real, a2: real, male: bool)
    requires w1 <= w2 && h1 <= h2 && a2 <= a1
    ensures Bmr(w1, h1, a1, male) <= Bmr(w2, h2, a2, male)
    ensures w1 < w2 ==> Bmr(w1, h1, a1, male) < Bmr(w2, h2, a2, male)
    ensures h1 < h2 ==> Bmr(w1, h1, a1, male) < Bmr(w2, h2, a2, male)
    ensures a2 < a1 ==> Bmr(w1, h1, a1, male) < Bmr(w2, h2, a2, male)
  {
  }

  /** The gender test ignores case: "Male" and "MALE" count as male, "Female" and "Other" do not. */
  lemma GenderTest()
    ensures IsMale(None) && IsMale(Some("Male")) && IsMale(Some("MALE"))
    ensures !IsMale(Some("Female")) && !IsMale(Some("Other"))
  {
    assert Text.Lower("Male") == "male";
    assert Text.Lower("MALE") == "male";
    assert Text.Lower("Female")[0] == 'f';
    assert Text.Lower("Other")[0] == 'o';
  }

  /** A 70 kg, 170 cm, 25-year-old man has BMR 1642.5 and, at moderate activity, TDEE 2545.875. */
  lemma ReferenceMan()
    ensures Bmr(70.0, 170.0, 25.0, true) == 1642.5
    ensures Bmr(70.0, 170.0, 25.0, true) * ActivityFactor(Some("Moderate")) == 2545.875
  {
    ModerateFactor();
  }

  /** The moderate level and a missing level both give the factor 1.55. */
  lemma ModerateFactor()
    ensures ActivityFactor(Some("Moderate")) == 1.55 && ActivityFactor(None) == 1.55
  {
    assert |"Moderate"| == 8 && |"Sedentary"| == 9 && |"Light"| == 5 && |"Very Active"| == 11;
  }

  /** An empty profile is the reference man at moderate activity, maintaining weight. */
  lemma DefaultMetrics()
    ensures ComputeMetrics(EmptyProfile) == Some(Metrics(7000.0 / 289.0, 1642.5, 2545.875, 2545.875))
  {
    assert IsMale(None) by { GenderTest(); }
    ModerateFactor();
    assert 70.0 / ((170.0 / 100.0) * (170.0 / 100.0)) == 7000.0 / 289.0;
  }

  /** A saved profile's figures use its own values: no default applies. */
  lemma SavedProfileUsesForm(prior: StoredProfile, form: Form)
    requires form.height != 0.0
    ensures var m := ComputeMetrics(SaveProfile(prior, form));
            && m.Some?
            && m.value.bmr == Bmr(form.weight, form.height, form.age, Text.Lower(form.gender) == "male")
            && m.value.tdee == m.value.bmr * ActivityFactor(Some(form.activity))
            && m.value.bmi * ((form.height / 100.0) * (form.height / 100.0)) == form.weight
  {
  }

  /** A higher activity level never lowers the daily need when the BMR is positive. */
  lemma ActivityOrder(bmr: real)
    requires bmr > 0.0
    ensures bmr * ActivityFactor(Some("Sedentary")) < bmr * ActivityFactor(Some("Light"))
    ensures bmr * ActivityFactor(Some("Light")) < bmr * ActivityFactor(Some("Moderate"))
    ensures bmr * ActivityFactor(Some("Moderate")) < bmr * ActivityFactor(Some("Very Active"))
  {
  }

  /** With a positive need, losing weight targets less than maintaining, and gaining more. */
  lemma GoalOrder(tdee: real, other: Option<string>)
    requires tdee > 0.0
    requires other != Some("Weight Loss") && other != Some("Weight Gain")
    ensures Target(tdee, Some("Weight Loss")) < Target(tdee, other) < Target(tdee, Some("Weight Gain"))
  {
  }
}
