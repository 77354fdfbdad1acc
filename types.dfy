/** The record shapes of `types.ts` that the modelled components use. */
module Types {
  import opened Wrappers

  datatype Role = User | Model

  /** `ChatMessage` (and the voice assistant's identical `ConversationTurn`). */
  datatype ChatMessage = ChatMessage(role: Role, text: string)

  datatype Meals = Meals(breakfast: string, lunch: string, dinner: string, snacks: string)

  datatype DailyMealPlan = DailyMealPlan(day: string, meals: Meals, notes: Option<string>)

  datatype DietPlan = DietPlan(title: string, summary: string, dailyPlans: seq<DailyMealPlan>)
}
