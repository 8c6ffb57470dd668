/** The energy of food from its macronutrients, shared by the meal-plan and tracker pages. */
module Energy {

  /** Energy of a macro split: 4 kcal per gram of protein and carbohydrate, 9 per gram of fat. */
  function Kcal(protein: real, carbs: real, fat: real): real {
    4.0 * protein + 4.0 * carbs + 9.0 * fat
  }
}
