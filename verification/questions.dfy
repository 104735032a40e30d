/** The built-in question set (data/questions.ts): twenty prompts, in order. */
module Questions {

  const Texts: seq<string> := [
    "What was the single most important lesson you learned this year?",
    "What is a brave decision you made, and how did it change you?",
    "Who did you spend the most meaningful time with?",
    "What is a habit you started this year that you want to keep?",
    "What is something you let go of, and felt lighter because of it?",
    "Describe a moment of pure joy you experienced.",
    "What was the biggest challenge you overcame?",
    "What is a new skill or hobby you picked up?",
    "How did you take care of your mental health this year?",
    "What book, movie, or song defined your year?",
    "What is one thing you would do differently if you could restart the year?",
    "What are you most proud of achieving?",
    "What unexpected surprise happened this year?",
    "How have your priorities shifted over the last 12 months?",
    "What is a place you visited that left a mark on you?",
    "Who helped you the most when things got tough?",
    "What is a fear you faced this year?",
    "What makes you feel grateful right now?",
    "What is your word or theme for the coming year?",
    "If you could send a message to yourself at the start of this year, what would it be?"
  ]

  /** `QUESTIONS.length`. */
  const Count: nat := 20

  lemma CountIsLength()
    ensures |Texts| == Count
  {
  }

}
