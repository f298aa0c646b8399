/** The request and response records of the recipe endpoint, with the
    constraints their validation decorators declare. */
module RecipesDto {
  import opened Outcomes

  /** A string field that `@IsOptional` lets through as `undefined`, as
      `null` or as a string. */
  datatype NullableString = Undefined | Null | Given(value: string)

  /** `RecipesInputDto`. The decorators make `ingredients` a required array
      of strings; every other field may be absent or `null`. `max_minutes`
      is a number, modelled as an integer. `output_lang` keeps the
      difference between `undefined` and `null`, since both are printed
      into the key string and the prompt. The other optional fields only
      meet truthiness tests, and `normalizeFilter` copies a `null` as it
      is, so `null` there acts as absent and is modelled as `None`. */
  datatype RecipesInput = RecipesInput(
    ingredients: seq<string>,
    diet: Option<string>,
    allergies: Option<seq<string>>,
    maxMinutes: Option<int>,
    cuisine: Option<string>,
    allowedMethods: Option<seq<string>>,
    outputLang: NullableString)

  /** What the validators check beyond the field types: `max_minutes`,
      when present, is positive. */
  predicate ValidInput(f: RecipesInput) {
    f.maxMinutes.Some? ==> f.maxMinutes.value > 0
  }

  /** `NutritionDto`: per-serving figures, each optional; any number,
      fractions included. */
  datatype Nutrition = Nutrition(kcal: Option<real>, proteinG: Option<real>, carbG: Option<real>, fatG: Option<real>)

  /** `RecipeOutputDto`. A substitution is an object of string fields. */
  datatype RecipeOutput = RecipeOutput(
    title: string,
    timeMinutes: real,
    difficulty: string,
    missing: seq<string>,
    substitutions: seq<map<string, string>>,
    steps: seq<string>,
    nutritionPerServing: Nutrition,
    ingredients: seq<string>)

  const Difficulties: set<string> := {"easy", "medium"}

  predicate ValidOutput(r: RecipeOutput) {
    r.difficulty in Difficulties
  }

  /** A recipe built from the required fields takes the declared defaults:
      difficulty `easy`, no missing ingredients, no substitutions. */
  function NewRecipeOutput(title: string, timeMinutes: real, steps: seq<string>,
                           nutrition: Nutrition, ingredients: seq<string>): (r: RecipeOutput)
    ensures ValidOutput(r)
    ensures r.difficulty == "easy" && r.missing == [] && r.substitutions == []
    ensures r.title == title && r.timeMinutes == timeMinutes && r.steps == steps
    ensures r.nutritionPerServing == nutrition && r.ingredients == ingredients
  {
    RecipeOutput(title, timeMinutes, "easy", [], [], steps, nutrition, ingredients)
  }
}
