# modeni core in Dafny

A model of the core of **modeni**, a family-journal backend. The core has
two parts. First, the welfare recommendation engine: a diary entry becomes
an emotion profile, the profile selects and ranks welfare programmes from a
catalogue, and one recommendation row is written per ranked programme.
Second, the family services around it: diaries, daily questions, answers,
reactions, and weekly missions with their reviews.

Each source file is one module:

| module | file | models |
|---|---|---|
| `WishActivities`, `EmotionKeywords` | `wish_activity.dfy`, `emotion_keyword.dfy` | the two button vocabularies: constants, Korean names, lookup by name, category and polarity partitions |
| `Catalogue` | `catalogue.dfy` | the programme entity and the catalogue queries of `WelfareProgramRepository` as filters over a sequence |
| `EmotionAnalysis` | `emotion_analysis.dfy` | the text profile: the six-line answer of the generator parsed by an explicit scanner for the `KEY:\s*(.+?)(?=\n[A-Z_]+:\|$)` pattern, with its fallback profile. The deterministic button profile, built list by list. The trigger test and the fallback reason |
| `WelfareRecommendation` | `welfare_recommendation.dfy` | age parsing, the relevance score accumulated factor by factor, candidate gathering, ranking (distinct, score above 0.3, stable descending sort, top five), the template reason, and a `RecommendationService` class whose recommendation table the text and button paths append to |
| `CsvLoader` | `csv_loader.dfy` | the quote-toggling CSV field splitter, the age-range rules, the tag string, and the loader loop over the file's lines |
| `Diaries` | `diary.dfy` | a `DiaryService` class over the diary table: one diary per user per day, author-only update and delete, family visibility, the list/string codec and the recommendation dispatch |
| `UserDailyQuestions` | `user_daily_question.dfy` | a class over the per-user question journal: gap filling from the join date to today, the shared per-family seed, and history queries through the oldest member |
| `DailyQuestions` | `daily_question.dfy` | a class holding the two per-family maps of the 09:00 rollover cache |
| `Missions`, `MissionReviews`, `MissionReviewReactions` | `missions.dfy`, `mission_review.dfy`, `mission_review_reaction.dfy` | weekly mission assignment and completion, reviews that complete or reopen a mission, and the praise toggle |
| `Reactions`, `Answers`, `Questions` | `reaction.dfy`, `answer.dfy`, `question.dfy` | replace-semantics reactions on answers and diaries, one answer per question and user, and question visibility and choice |
| `Wrappers`, `Text`, `Numbers`, `Sequences`, `Domain` | `wrappers.dfy`, `text.dfy`, `numbers.dfy`, `sequences.dfy`, `domain.dfy` | `Option`/`Result`, Java's `trim`/`split`/`contains`/`join`, `Integer.parseInt` and `Double.parseDouble`, the stream stages (`filter`, `distinct`, a stable sort, `limit`, `map`), and the shared `User`/`Question`/date types |

How the model is built:
- Services that change tables are classes. Their fields are sequences or maps; their methods name what they may change, and each method's postcondition states the new table in terms of a specification function of the old one.
- Lemmas state the promises about those functions: uniqueness, idempotence, round trips, bounds, ordering, and "nothing else changes".
- Scores are exact `real`s.
- The text generator, `java.util.Random`, `String.hashCode` and the clock are parameters.
- A Java exception becomes the `Err` case of a `Result`. When the caller swallows the exception, that caller writes nothing. The one exception the model does not reach is a missing programme category, listed under "Left out".

## Model

| member | source | states |
|---|---|---|
| WishActivities.ValuesComplete | src/main/java/com/steam/modeni/domain/enums/WishActivity.java:12-29 | every constant of the enum is listed by `values()` |
| WishActivities.OrdinalsInOrder | src/main/java/com/steam/modeni/domain/enums/WishActivity.java:12-29 | `values()` has seventeen constants and the ordinal of each is its position in declaration order |
| WishActivities.NameInjective | src/main/java/com/steam/modeni/domain/enums/WishActivity.java:13-29 | two constants have the same Korean name exactly when they are the same constant |
| WishActivities.FromKoreanNameInverse | src/main/java/com/steam/modeni/domain/enums/WishActivity.java:50-55 | `fromKoreanName(a.getKoreanName())` gives back `a` for every constant |
| WishActivities.FromKoreanNameUnknown | src/main/java/com/steam/modeni/domain/enums/WishActivity.java:50-55 | `fromKoreanName` answers null exactly for a string that is not among `getAllActivityNames()` |
| WishActivities.AllActivityNamesDistinct | src/main/java/com/steam/modeni/domain/enums/WishActivity.java:90-94 | `getAllActivityNames` lists seventeen names, no two equal |
| WishActivities.NamesOfMember | src/main/java/com/steam/modeni/domain/enums/WishActivity.java:99-103 | a name is in the mapped list exactly when some listed activity carries it |
| WishActivities.OfCategory | src/main/java/com/steam/modeni/domain/enums/WishActivity.java:60-64 | the filtered list is no longer than its input and holds exactly the input's activities of the requested category |
| WishActivities.OfCategoryIsSubsequence | src/main/java/com/steam/modeni/domain/enums/WishActivity.java:60-64 | the category filter keeps the input's order |
| WishActivities.OfCategoryLengths | src/main/java/com/steam/modeni/domain/enums/WishActivity.java:60-85 | the indoor, outdoor and creative lists of any input together are as long as the input |
| WishActivities.CategoryPartition | src/main/java/com/steam/modeni/domain/enums/WishActivity.java:60-85 | every constant is in the list of its own category and of no other, the three lists hold seventeen constants in all, and each keeps declaration order |
| WishActivities.ExactlyOneCategory | src/main/java/com/steam/modeni/domain/enums/WishActivity.java:108-124 | exactly one of `isIndoor`, `isOutdoor` and `isCreative` holds for every constant |
| EmotionKeywords.ValuesComplete | src/main/java/com/steam/modeni/domain/enums/EmotionKeyword.java:12-34 | every constant of the enum is listed by `values()` |
| EmotionKeywords.NameInjective | src/main/java/com/steam/modeni/domain/enums/EmotionKeyword.java:14-34 | two constants have the same Korean name exactly when they are the same constant |
| EmotionKeywords.FromKoreanNameInverse | src/main/java/com/steam/modeni/domain/enums/EmotionKeyword.java:46-51 | `fromKoreanName(k.getKoreanName())` gives back `k` for every constant |
| EmotionKeywords.FromKoreanNameUnknown | src/main/java/com/steam/modeni/domain/enums/EmotionKeyword.java:46-51 | `fromKoreanName` answers null exactly for a string that is not among `getAllEmotionNames()` |
| EmotionKeywords.OfType | src/main/java/com/steam/modeni/domain/enums/EmotionKeyword.java:56-69 | the polarity filter is no longer than its input and holds exactly the input's constants of that polarity |
| EmotionKeywords.OfTypeAll | src/main/java/com/steam/modeni/domain/enums/EmotionKeyword.java:56-69 | a list whose constants all have the polarity is kept whole |
| EmotionKeywords.OfTypeNone | src/main/java/com/steam/modeni/domain/enums/EmotionKeyword.java:56-69 | a list with no constant of the polarity filters to empty |
| EmotionKeywords.OfTypeAppend | src/main/java/com/steam/modeni/domain/enums/EmotionKeyword.java:56-69 | filtering a concatenation is the concatenation of the filtered parts |
| EmotionKeywords.PositiveConstantsArePositive | src/main/java/com/steam/modeni/domain/enums/EmotionKeyword.java:14-22 | the first nine constants are all of positive type |
| EmotionKeywords.NegativeConstantsAreNegative | src/main/java/com/steam/modeni/domain/enums/EmotionKeyword.java:25-34 | the last ten constants are all of negative type |
| EmotionKeywords.PolarityPartition | src/main/java/com/steam/modeni/domain/enums/EmotionKeyword.java:12-69 | `getPositiveEmotions` is the nine positive constants and `getNegativeEmotions` the ten negative ones, in declaration order, and together they are `values()` |
| EmotionKeywords.NamesOfMember | src/main/java/com/steam/modeni/domain/enums/EmotionKeyword.java:74-96 | a name is in the mapped list exactly when some listed constant carries it |
| EmotionKeywords.ExactlyOnePolarity | src/main/java/com/steam/modeni/domain/enums/EmotionKeyword.java:101-110 | exactly one of `isPositive` and `isNegative` holds for every constant |
| Catalogue.FindByCityAndAgeRange | src/main/java/com/steam/modeni/repository/WelfareProgramRepository.java:28-32 | exactly the active programs of the city whose age bounds, where present, admit the age, in table order |
| Catalogue.FindByEmotionKeywordContaining | src/main/java/com/steam/modeni/repository/WelfareProgramRepository.java:35-37 | exactly the active programs whose emotion keywords contain the keyword, in table order |
| Catalogue.FindByCategoryAndIsActiveTrue | src/main/java/com/steam/modeni/repository/WelfareProgramRepository.java:40 | exactly the active programs of the category, in table order |
| Catalogue.FindByComplexCriteria | src/main/java/com/steam/modeni/repository/WelfareProgramRepository.java:43-50 | exactly the active programs matching city, age bounds and keyword, in table order |
| Catalogue.QueriesReturnActive | src/main/java/com/steam/modeni/repository/WelfareProgramRepository.java:28-40 | the three queries the engine runs return active programs only |
| Catalogue.ComplexIsBoth | src/main/java/com/steam/modeni/repository/WelfareProgramRepository.java:28-50 | the combined query equals the keyword query run over the city-and-age result, and the city-and-age query run over the keyword result, row for row |
| Domain.FindUser | src/main/java/com/steam/modeni/service/UserDailyQuestionService.java:32-33 | a user is found exactly when the table holds one with that id, and the one found has that id |
| Domain.FindQuestion | src/main/java/com/steam/modeni/service/QuestionService.java:30-34 | a question is found exactly when the catalogue holds one with that id, and the one found has that id |
| DailyQuestions.Abs32 | src/main/java/com/steam/modeni/service/DailyQuestionService.java:88 | `Math.abs` of a 32-bit hash is its magnitude, except that the most negative int stays negative |
| DailyQuestions.Selected | src/main/java/com/steam/modeni/service/DailyQuestionService.java:81-92 | a question is chosen exactly when the table is non-empty, and it is one of the table's questions |
| DailyQuestions.ForFamily | src/main/java/com/steam/modeni/service/DailyQuestionService.java:69-75 | the copy keeps the cached question's id, content and creation time and carries the requesting family's code |
| DailyQuestions.Refreshed | src/main/java/com/steam/modeni/service/DailyQuestionService.java:40-66 | the cache stays consistent; when a new question is needed and there is one, both maps get today's entry for the family, and otherwise the cache is unchanged |
| DailyQuestions.Answer | src/main/java/com/steam/modeni/service/DailyQuestionService.java:69-78 | the answer is present exactly when the family has a cached question, and is then that question's family copy |
| DailyQuestions.RefreshTouchesOwnFamily | src/main/java/com/steam/modeni/service/DailyQuestionService.java:40-66 | a request leaves every other family's entries in both maps as they were |
| DailyQuestions.AnsweredIff | src/main/java/com/steam/modeni/service/DailyQuestionService.java:40-78 | after a request the family gets a question exactly when it had one cached or the table is non-empty |
| DailyQuestions.BeforeNineKeepsPrevious | src/main/java/com/steam/modeni/service/DailyQuestionService.java:54-61 | before 09:00 on a later day the cache is unchanged and the previous day's question is answered |
| DailyQuestions.RolloverAtNine | src/main/java/com/steam/modeni/service/DailyQuestionService.java:54-66 | from 09:00 on a later day, with a non-empty table, the family's date becomes today and the answer is today's seeded pick |
| DailyQuestions.SameDayStable | src/main/java/com/steam/modeni/service/DailyQuestionService.java:40-66 | a second request on the same day changes nothing, unless the 09:00 rollover falls between the two requests |
| DailyQuestions.DailyQuestionService.constructor | src/main/java/com/steam/modeni/service/DailyQuestionService.java:26-27 | both caches start empty |
| DailyQuestions.DailyQuestionService.SelectNewQuestionForFamily | src/main/java/com/steam/modeni/service/DailyQuestionService.java:81-98 | with an empty table both maps are unchanged; otherwise the family maps to today's seeded pick and to today's date |
| DailyQuestions.DailyQuestionService.GetTodayQuestionForFamily | src/main/java/com/steam/modeni/service/DailyQuestionService.java:40-79 | the new cache is the refreshed cache and the result is the family's copy of its cached question, or null |
| DailyQuestions.DailyQuestionService.IsQuestionForTodayAndFamily | src/main/java/com/steam/modeni/service/DailyQuestionService.java:32-35 | refreshes the cache as `getTodayQuestionForFamily` does, and answers whether the family's question of the day has the given question's id |
| Questions.AllQuestions | src/main/java/com/steam/modeni/service/QuestionService.java:25-28 | the whole catalogue, each question as often as stored, in ascending id order |
| Questions.GetQuestionById | src/main/java/com/steam/modeni/service/QuestionService.java:30-34 | fails exactly when no question has the id; otherwise a catalogue question with that id |
| Questions.GetQuestionsForFamily | src/main/java/com/steam/modeni/service/QuestionService.java:53-57 | exactly the system questions (family code 0) and the family's own questions |
| Questions.GetQuestionsForUser | src/main/java/com/steam/modeni/service/QuestionService.java:36-51 | fails exactly for an unknown user; otherwise exactly the system and family questions created at or after the user's join instant |
| Questions.UserSeesFamilyQuestions | src/main/java/com/steam/modeni/service/QuestionService.java:36-57 | every question a user gets is among the questions of the user's family |
| Questions.ConvertForFamily | src/main/java/com/steam/modeni/service/QuestionService.java:116-120 | the question keeps its id, content and creation time and carries the given family code |
| Questions.ConvertTwice | src/main/java/com/steam/modeni/service/QuestionService.java:116-120 | converting twice equals converting once with the last code; converting is idempotent |
| Questions.AnsweredAmong | src/main/java/com/steam/modeni/repository/AnswerRepository.java:22-31 | exactly the catalogue questions whose id is in the answered set, converted to the family code, in descending id order |
| Questions.Converted | src/main/java/com/steam/modeni/service/QuestionService.java:65-67 | one converted question per row, position by position, and nothing else |
| Questions.FamilyAnsweredIds | src/main/java/com/steam/modeni/repository/AnswerRepository.java:22-25 | exactly the ids of questions answered by a member of the family |
| Questions.UserAnsweredIds | src/main/java/com/steam/modeni/repository/AnswerRepository.java:28-31 | exactly the ids of questions the user answered |
| Questions.GetAnsweredQuestionsByFamily | src/main/java/com/steam/modeni/service/QuestionService.java:59-68 | exactly the catalogue questions some family member answered, each carrying the family's code |
| Questions.GetAnsweredQuestionsByUser | src/main/java/com/steam/modeni/service/QuestionService.java:70-82 | fails exactly for an unknown user; otherwise exactly the questions the user answered, carrying the user's family code |
| Questions.UserAnsweredWithinFamily | src/main/java/com/steam/modeni/service/QuestionService.java:59-82 | a user's answered questions are among the answered questions of the user's family |
| Questions.Members | src/main/java/com/steam/modeni/service/QuestionService.java:87 | exactly the users of the family |
| Questions.Unanswered | src/main/java/com/steam/modeni/service/QuestionService.java:98-105 | exactly the catalogue questions no family member has answered |
| Questions.GetRandomQuestionForFamily | src/main/java/com/steam/modeni/service/QuestionService.java:84-114 | a success is a catalogue question that no family member has answered |
| Questions.RandomQuestionFails | src/main/java/com/steam/modeni/service/QuestionService.java:84-109 | fails exactly when the family has no member, or when every catalogue question (possibly none) has been answered by a member |
| Questions.DrawIrrelevantToSuccess | src/main/java/com/steam/modeni/service/QuestionService.java:111-113 | whether the call succeeds does not depend on the random draw |
| Answers.ToResponse | src/main/java/com/steam/modeni/service/AnswerService.java:119-133 | the response carries the answer's id, content, creation time, the author's id, name and username, and the question id |
| Answers.IndexOf | src/main/java/com/steam/modeni/service/AnswerService.java:71-72 | a found position holds the answer with that id; none is found exactly when no answer has the id |
| Answers.TableValidAppend | src/main/java/com/steam/modeni/service/AnswerService.java:47-52 | saving an answer with a fresh id that the user has not yet given for that question keeps ids unique and one answer per question and user |
| Answers.TableValidRemove | src/main/java/com/steam/modeni/service/AnswerService.java:82-86 | deleting a row keeps the table valid |
| Answers.RemoveMembers | src/main/java/com/steam/modeni/service/AnswerService.java:82-86 | deleting the row at a position removes exactly the answer with that row's id |
| Answers.AnswersTo | src/main/java/com/steam/modeni/service/AnswerService.java:111 | exactly the answers to the question, in ascending creation order |
| Answers.FamilyResponses | src/main/java/com/steam/modeni/service/AnswerService.java:113-116 | exactly the responses of the rows whose author belongs to the family, no more rows than the input |
| Answers.FamilyResponsesOrdered | src/main/java/com/steam/modeni/service/AnswerService.java:111-116 | the family filter keeps the input's order: rows in creation order give responses in creation order |
| Answers.FamilyResponsesSound | src/main/java/com/steam/modeni/service/AnswerService.java:111-116 | every reported response comes from an answer to that question by a member of that family |
| Answers.AnswerService.constructor | src/main/java/com/steam/modeni/service/AnswerService.java:24-27 | the answer table starts empty |
| Answers.AnswerService.CreateAnswer | src/main/java/com/steam/modeni/service/AnswerService.java:29-60 | fails on an unknown question or user, on a question that is not the family's question of the day, or on a second answer by the same user; otherwise appends exactly one answer with the given content, question and author |
| Answers.AnswerService.UpdateAnswer | src/main/java/com/steam/modeni/service/AnswerService.java:70-80 | fails exactly for an unknown id; otherwise only that answer's content changes |
| Answers.AnswerService.DeleteAnswer | src/main/java/com/steam/modeni/service/AnswerService.java:82-91 | fails exactly for an unknown id; otherwise removes exactly that answer and keeps the others in order |
| Answers.AnswerService.GetTodayAnswersForFamily | src/main/java/com/steam/modeni/service/AnswerService.java:104-117 | refreshes the day's question like `getTodayQuestionForFamily`; fails exactly when the family has no question; otherwise the family's answers to it, stated in order of creation time, earliest first |
| UserDailyQuestions.SystemQuestions | src/main/java/com/steam/modeni/service/UserDailyQuestionService.java:166 | exactly the questions with family code 0 |
| UserDailyQuestions.NewEntry | src/main/java/com/steam/modeni/service/UserDailyQuestionService.java:160-187 | fails exactly when there is no system question or the user has no family code; otherwise a row for that user and date holding a system question, with day number counted from one at the join date |
| UserDailyQuestions.SameFamilySameQuestion | src/main/java/com/steam/modeni/service/UserDailyQuestionService.java:171-175 | two members of one family get the same question on the same date |
| UserDailyQuestions.DayNumberPositive | src/main/java/com/steam/modeni/service/UserDailyQuestionService.java:162-163 | a row dated on or after the join date has a day number of at least one |
| UserDailyQuestions.FindEntry | src/main/java/com/steam/modeni/repository/UserDailyQuestionRepository.java:21 | a row is found exactly when the user has one on that date, and it is that user's row for that date |
| UserDailyQuestions.Missing | src/main/java/com/steam/modeni/service/UserDailyQuestionService.java:144-154 | exactly the dates of the range on which the user has no row, in strictly ascending order |
| UserDailyQuestions.NewEntries | src/main/java/com/steam/modeni/service/UserDailyQuestionService.java:145-154 | one created row per missing date, in date order |
| UserDailyQuestions.MissingStep | src/main/java/com/steam/modeni/service/UserDailyQuestionService.java:145-153 | one more day of the loop adds that day to the missing dates exactly when the user has no row on it |
| UserDailyQuestions.NewEntriesSnoc | src/main/java/com/steam/modeni/service/UserDailyQuestionService.java:149-150 | the row for one more missing date is appended after the earlier ones |
| UserDailyQuestions.HasEntryAppended | src/main/java/com/steam/modeni/service/UserDailyQuestionService.java:146-150 | rows created for earlier dates do not change whether the user has a row on a later date |
| UserDailyQuestions.FilledHasEntry | src/main/java/com/steam/modeni/service/UserDailyQuestionService.java:146-150 | the rows the loop added before a date leave the lookup on that date as it was |
| UserDailyQuestions.FillStep | src/main/java/com/steam/modeni/service/UserDailyQuestionService.java:145-154 | one loop step fails exactly when the dates up to this one cannot all be filled; otherwise the table is the original plus the rows for every missing date up to this one |
| UserDailyQuestions.FillCovers | src/main/java/com/steam/modeni/service/UserDailyQuestionService.java:136-155 | after a fill, the user has a row on every date from the join date to today |
| UserDailyQuestions.FillCoversAll | src/main/java/com/steam/modeni/service/UserDailyQuestionService.java:136-155 | after a fill, every date from the join date to today has a row of the user |
| UserDailyQuestions.CanFillPrefix | src/main/java/com/steam/modeni/service/UserDailyQuestionService.java:145-154 | if some missing date cannot be filled, neither can any longer range that contains it |
| UserDailyQuestions.FillUnique | src/main/java/com/steam/modeni/service/UserDailyQuestionService.java:145-154 | a fill keeps at most one row per user and date |
| UserDailyQuestions.FillIdempotent | src/main/java/com/steam/modeni/service/UserDailyQuestionService.java:136-155 | a second fill on the same day finds no missing date |
| UserDailyQuestions.OldestMember | src/main/java/com/steam/modeni/service/UserDailyQuestionService.java:72-74 | a member whose join instant no member precedes, and the first such in list order |
| UserDailyQuestions.Members | src/main/java/com/steam/modeni/service/UserDailyQuestionService.java:66 | exactly the users of the family |
| UserDailyQuestions.Ascending | src/main/java/com/steam/modeni/repository/UserDailyQuestionRepository.java:18 | the same rows, as a multiset, in ascending date order |
| UserDailyQuestions.History | src/main/java/com/steam/modeni/repository/UserDailyQuestionRepository.java:18 | exactly the user's rows, in ascending date order |
| UserDailyQuestions.HistoryBetween | src/main/java/com/steam/modeni/repository/UserDailyQuestionRepository.java:30-35 | exactly the user's rows dated within the inclusive range, in ascending date order |
| UserDailyQuestions.HistoryCovers | src/main/java/com/steam/modeni/service/UserDailyQuestionService.java:76-80 | every date on which the user has a row appears in the user's history |
| UserDailyQuestions.UserDailyQuestionService.constructor | src/main/java/com/steam/modeni/service/UserDailyQuestionService.java:24 | the row table starts empty |
| UserDailyQuestions.UserDailyQuestionService.GetTodayQuestionForUser | src/main/java/com/steam/modeni/service/UserDailyQuestionService.java:31-47 | fails for an unknown user; returns the existing row for today unchanged, or creates and appends it, failing with no change when it cannot be created |
| UserDailyQuestions.UserDailyQuestionService.FillMissing | src/main/java/com/steam/modeni/service/UserDailyQuestionService.java:136-155 | succeeds exactly when every missing date can be filled, and then appends one row per missing date in date order so that every date from join to today has a row; a failure changes nothing |
| UserDailyQuestions.UserDailyQuestionService.GenerateMissingQuestionsForUser | src/main/java/com/steam/modeni/service/UserDailyQuestionService.java:136-155 | fails for an unknown user; otherwise the fill of that user |
| UserDailyQuestions.UserDailyQuestionService.GenerateMissingQuestionsForFamily | src/main/java/com/steam/modeni/service/UserDailyQuestionService.java:119-131 | fails for a family with no member; otherwise the fill of its earliest-joined member |
| UserDailyQuestions.UserDailyQuestionService.GetQuestionHistoryForFamily | src/main/java/com/steam/modeni/service/UserDailyQuestionService.java:63-81 | fails for a family with no member, changing nothing; otherwise succeeds exactly when the earliest-joined member's missing days can all be given a question, appends exactly those filled rows, and returns that member's whole history, which covers every day from join to today; a failure changes nothing |
| UserDailyQuestions.UserDailyQuestionService.GetQuestionHistoryForUser | src/main/java/com/steam/modeni/service/UserDailyQuestionService.java:52-58 | fails exactly for an unknown user; otherwise exactly that user's rows |
| UserDailyQuestions.UserDailyQuestionService.GetQuestionHistoryForUserByDateRange | src/main/java/com/steam/modeni/service/UserDailyQuestionService.java:106-114 | fails exactly for an unknown user; otherwise exactly that user's rows within the range |
| UserDailyQuestions.UserDailyQuestionService.GetQuestionHistoryForFamilyByDateRange | src/main/java/com/steam/modeni/service/UserDailyQuestionService.java:86-101 | fails exactly for a family with no member; otherwise exactly the earliest-joined member's rows within the range |
| Missions.DayOfWeek | src/main/java/com/steam/modeni/service/MissionService.java:44 | the day of the week of an epoch day lies in 0 (Monday) to 6 |
| Missions.WeekStart | src/main/java/com/steam/modeni/service/MissionService.java:43-45 | the week start is a Monday at 00:00:00, at most six days before the instant |
| Missions.SameWeekSameStart | src/main/java/com/steam/modeni/service/MissionService.java:43-50 | two instants of the same Monday-to-Sunday week have the same week start |
| Missions.MissionNumber | src/main/java/com/steam/modeni/service/MissionService.java:53-54 | the mission number lies in 1 to 8 |
| Missions.NewMission | src/main/java/com/steam/modeni/service/MissionService.java:52-64 | the new mission has a number in 1 to 8 and that number's content, this week's start, the assignment instant, and is open with no completion time |
| Missions.IndexOf | src/main/java/com/steam/modeni/service/MissionService.java:98-99 | a found position holds the mission with that id; none is found exactly when no mission has the id |
| Missions.FamilyMemberCount | src/main/java/com/steam/modeni/service/MissionService.java:106 | the count never exceeds the number of users, is zero exactly when no user has the family code, and is the whole table exactly when every user has it |
| Missions.FamilyMemberCountAppend | src/main/java/com/steam/modeni/service/MissionService.java:106 | one more user raises the count by one exactly when that user has the family code |
| Missions.AfterCompletionCheck | src/main/java/com/steam/modeni/service/MissionService.java:97-117 | only the checked mission can change; it becomes completed at the given instant exactly when it was open and the non-zero member count equals the number of distinct reviewers; completed missions stay as they are |
| Missions.AfterReopen | src/main/java/com/steam/modeni/service/MissionReviewService.java:116-122 | only the reviewed mission can change; if it was completed it becomes open with no completion time |
| Missions.AfterCompletionCheckValid | src/main/java/com/steam/modeni/service/MissionService.java:97-117 | the completion check keeps the mission table valid |
| Missions.AfterReopenValid | src/main/java/com/steam/modeni/service/MissionReviewService.java:116-122 | reopening keeps the mission table valid |
| Missions.TableValidReplace | src/main/java/com/steam/modeni/service/MissionService.java:113-115 | replacing a mission by one with the same id, family and week and a consistent completion state keeps the table valid |
| Missions.SecondAssignmentRefused | src/main/java/com/steam/modeni/service/MissionService.java:47-50 | once a family holds a mission issued at some instant, any later request in the same week finds it |
| Missions.MissionService.constructor | src/main/java/com/steam/modeni/service/MissionService.java:23 | the mission table starts empty |
| Missions.MissionService.AssignWeeklyMission | src/main/java/com/steam/modeni/service/MissionService.java:42-67 | fails, changing nothing, exactly when the family already has a mission for this week; otherwise appends exactly the new mission with the next id |
| Missions.MissionService.CheckAndUpdateMissionCompletion | src/main/java/com/steam/modeni/service/MissionService.java:97-117 | fails exactly for an unknown mission; the table becomes the completion-checked table |
| Missions.MissionService.ReopenMission | src/main/java/com/steam/modeni/service/MissionReviewService.java:117-122 | the table becomes the reopened table |
| Missions.MissionService.GetMissionById | src/main/java/com/steam/modeni/service/MissionService.java:122-126 | succeeds exactly when a mission has the id, and returns that mission |
| MissionReviews.IndexOf | src/main/java/com/steam/modeni/service/MissionReviewService.java:74-75 | a found position holds the review with that id; none is found exactly when no review has the id |
| MissionReviews.Reviewers | src/main/java/com/steam/modeni/service/MissionReviewService.java:62 | exactly the users who have a review on the mission |
| MissionReviews.ReviewsOf | src/main/java/com/steam/modeni/service/MissionReviewService.java:133-138 | exactly the reviews of the mission |
| MissionReviews.ReviewersSnoc | src/main/java/com/steam/modeni/service/MissionReviewService.java:59-62 | one more review adds its author to the reviewers of its mission and to no other |
| MissionReviews.ReviewerCount | src/main/java/com/steam/modeni/service/MissionReviewService.java:48-62 | with one review per user and mission, the number of distinct reviewers equals the number of reviews of the mission |
| MissionReviews.TrimmedIsClean | src/main/java/com/steam/modeni/service/MissionReviewService.java:38-56 | trimmed text that was not blank is not empty and is unchanged by a second trim |
| MissionReviews.CreateError | src/main/java/com/steam/modeni/service/MissionReviewService.java:30-50 | no error exactly when the mission and user exist, the content is present and not blank, the user is of the mission's family and has not reviewed it yet |
| MissionReviews.TableValidAppend | src/main/java/com/steam/modeni/service/MissionReviewService.java:48-59 | adding a review by a user with none on that mission, under a fresh id, keeps ids unique and one review per mission and user |
| MissionReviews.TableValidRemove | src/main/java/com/steam/modeni/service/MissionReviewService.java:113-114 | deleting a review keeps the table valid |
| MissionReviews.MissionReviewService.constructor | src/main/java/com/steam/modeni/service/MissionReviewService.java:22-25 | the review table starts empty |
| MissionReviews.MissionReviewService.AddReview | src/main/java/com/steam/modeni/service/MissionReviewService.java:53-59 | appends exactly the new review under the next id |
| MissionReviews.MissionReviewService.CreateReview | src/main/java/com/steam/modeni/service/MissionReviewService.java:30-68 | fails, changing nothing, exactly when a check fails; otherwise appends the trimmed review, runs the completion check with the updated reviewers, and returns the new id |
| MissionReviews.MissionReviewService.UpdateReview | src/main/java/com/steam/modeni/service/MissionReviewService.java:73-96 | succeeds exactly for an existing review, a known user who is its author, and non-blank content; then only that review's content changes, to the trimmed text |
| MissionReviews.MissionReviewService.DeleteReview | src/main/java/com/steam/modeni/service/MissionReviewService.java:101-127 | succeeds exactly for an existing review, a known user who is its author; then removes that review and reopens its mission if completed; a failure changes nothing |
| MissionReviewReactions.IndexOfPair | src/main/java/com/steam/modeni/service/MissionReviewReactionService.java:57-58 | a found position holds the user's reaction on the review; none is found exactly when the user has none there |
| MissionReviewReactions.CountFor | src/main/java/com/steam/modeni/service/MissionReviewReactionService.java:81 | the count of a review's reactions never exceeds the table size |
| MissionReviewReactions.CountAppend | src/main/java/com/steam/modeni/service/MissionReviewReactionService.java:81 | the count over a concatenation is the sum of the counts |
| MissionReviewReactions.CountAdd | src/main/java/com/steam/modeni/service/MissionReviewReactionService.java:75-81 | saving a reaction raises its review's count by one |
| MissionReviewReactions.CountRemove | src/main/java/com/steam/modeni/service/MissionReviewReactionService.java:64-81 | deleting a row lowers the count of its review by one and leaves other reviews' counts alone |
| MissionReviewReactions.Toggled | src/main/java/com/steam/modeni/service/MissionReviewReactionService.java:57-78 | with an existing reaction of the user on the review exactly that row is removed and the rest keep their order; otherwise exactly one new reaction is appended |
| MissionReviewReactions.ToggledRemovesPair | src/main/java/com/steam/modeni/service/MissionReviewReactionService.java:56-65 | with one reaction per review and user, removing a reaction leaves exactly the rows of every other review-and-user pair |
| MissionReviewReactions.ToggledCount | src/main/java/com/steam/modeni/service/MissionReviewReactionService.java:62-82 | after a toggle the review's count is one less when a reaction was removed and one more when one was added |
| MissionReviewReactions.ToggleTwiceRestores | src/main/java/com/steam/modeni/service/MissionReviewReactionService.java:62-78 | adding a reaction and toggling again gives back the original table |
| MissionReviewReactions.ToggledValid | src/main/java/com/steam/modeni/service/MissionReviewReactionService.java:62-78 | a toggle with a fresh id keeps ids unique, below the next id, and one reaction per review and user |
| MissionReviewReactions.ToggleError | src/main/java/com/steam/modeni/service/MissionReviewReactionService.java:31-54 | no error exactly when the review and user exist, the user is not the author, is of the review's mission's family, and the upper-cased type is a reaction type |
| MissionReviewReactions.MissionReviewReactionService.constructor | src/main/java/com/steam/modeni/service/MissionReviewReactionService.java:24 | the reaction table starts empty |
| MissionReviewReactions.MissionReviewReactionService.Apply | src/main/java/com/steam/modeni/service/MissionReviewReactionService.java:57-78 | the table becomes the toggled table under the next id, and the action is "removed" exactly when the user had a reaction there |
| MissionReviewReactions.MissionReviewReactionService.ToggleReaction | src/main/java/com/steam/modeni/service/MissionReviewReactionService.java:31-85 | fails, changing nothing, exactly when a check fails; otherwise toggles, reports the action, and reports the review's new count, one below or above the old one |
| Reactions.IndexOfPair | src/main/java/com/steam/modeni/service/ReactionService.java:50 | a found position holds the user's reaction on the target; none is found exactly when the user has none there |
| Reactions.IndexOf | src/main/java/com/steam/modeni/service/ReactionService.java:77-78 | a found position holds the reaction with that id; none is found exactly when no reaction has the id |
| Reactions.RemoveAt | src/main/java/com/steam/modeni/service/ReactionService.java:80 | one row shorter, every other row kept in order |
| Reactions.Replaced | src/main/java/com/steam/modeni/service/ReactionService.java:49-60 | the new reaction ends the table; with no earlier reaction of the user on the target it is simply appended, otherwise the earlier reaction is removed, the rest keep their order and the new one follows |
| Reactions.ReplacedRemovesPair | src/main/java/com/steam/modeni/service/ReactionService.java:49-60 | with one reaction per target and user, the replaced table holds the new reaction and exactly the rows of every other target-and-user pair |
| Reactions.RemoveAtValid | src/main/java/com/steam/modeni/service/ReactionService.java:80 | deleting a row keeps the table valid and leaves its user without a reaction on its target |
| Reactions.ReplacedValid | src/main/java/com/steam/modeni/service/ReactionService.java:49-60 | replacing keeps ids unique and one reaction per target and user, and the new reaction is then the user's one reaction on the target |
| Reactions.ReplaceTwice | src/main/java/com/steam/modeni/service/ReactionService.java:49-60 | reacting twice to the same target leaves only the second reaction |
| Reactions.AnswerReactionError | src/main/java/com/steam/modeni/service/ReactionService.java:32-58 | no error exactly when the answer and user exist, the user is not the answer's author, both are of one family, and the upper-cased type is a reaction type |
| Reactions.DiaryReactionError | src/main/java/com/steam/modeni/service/ReactionService.java:97-109 | no error exactly when the diary exists, the user is not its author, and both are of one family |
| Reactions.DiaryReactions | src/main/java/com/steam/modeni/service/ReactionService.java:139 | exactly the reactions on the diary, in ascending creation order |
| Reactions.ToResponse | src/main/java/com/steam/modeni/service/ReactionService.java:142-147 | the response carries the reaction's id, its user's name, its type and its creation time |
| Reactions.Responses | src/main/java/com/steam/modeni/service/ReactionService.java:141-148 | one response per row, position by position |
| Reactions.ReactionService.constructor | src/main/java/com/steam/modeni/service/ReactionService.java:27 | the reaction table starts empty |
| Reactions.ReactionService.Replace | src/main/java/com/steam/modeni/service/ReactionService.java:49-60 | the table becomes the replaced table under the next id |
| Reactions.ReactionService.CreateReaction | src/main/java/com/steam/modeni/service/ReactionService.java:32-68 | fails, changing nothing, exactly when a check fails, an unknown type included; otherwise the user's earlier reaction on the answer is replaced by the new one and its id returned |
| Reactions.ReactionService.CreateDiaryReaction | src/main/java/com/steam/modeni/service/ReactionService.java:97-132 | fails, changing nothing, exactly when a check fails; otherwise the user's earlier reaction on the diary is replaced by the new one |
| Reactions.ReactionService.DeleteReaction | src/main/java/com/steam/modeni/service/ReactionService.java:76-85 | fails exactly for an unknown id; otherwise removes exactly that row |
| Reactions.ReactionService.DeleteDiaryReaction | src/main/java/com/steam/modeni/service/ReactionService.java:151-170 | succeeds exactly for an existing reaction by the same user on a diary, and then removes exactly that row; a failure changes nothing |
| Reactions.ReactionService.GetReactionsByDiary | src/main/java/com/steam/modeni/service/ReactionService.java:134-149 | fails exactly for an unknown diary; otherwise one response per reaction on the diary, in creation order |
| Diaries.Kept | src/main/java/com/steam/modeni/service/DiaryService.java:182-189 | the kept items are exactly non-null, non-blank items of the list, never more than the list holds |
| Diaries.ListToString | src/main/java/com/steam/modeni/service/DiaryService.java:182-189 | the stored text is null exactly when the list is null or empty |
| Diaries.StringToList | src/main/java/com/steam/modeni/service/DiaryService.java:195-203 | every decoded item is trimmed, non-empty and comma-free |
| Diaries.AllBlankGivesEmpty | src/main/java/com/steam/modeni/service/DiaryService.java:182-189 | a non-empty list whose items are all blank or null is stored as the empty string, not null |
| Diaries.BlankPrefix | src/main/java/com/steam/modeni/service/DiaryService.java:182-189 | appending anything to a non-blank text leaves it non-blank |
| Diaries.JoinNotBlank | src/main/java/com/steam/modeni/service/DiaryService.java:182-189 | a comma-joined list whose first item is not blank is not blank, so a list with a kept item is never read back as empty |
| Diaries.ListRoundTrip | src/main/java/com/steam/modeni/service/DiaryService.java:182-203 | decoding the stored text gives back the list's non-blank items, trimmed, in order, when no item holds a comma |
| Diaries.ListRoundTripClean | src/main/java/com/steam/modeni/service/DiaryService.java:182-203 | a list of clean comma-free items survives storing and reading back unchanged |
| Diaries.Values | src/main/java/com/steam/modeni/service/DiaryService.java:182-189 | the values of a null-free list, one for one and in order |
| Diaries.KeptAllClean | src/main/java/com/steam/modeni/service/DiaryService.java:182-189 | filtering a list of clean items keeps every one of them |
| Diaries.DispatchOf | src/main/java/com/steam/modeni/service/DiaryService.java:49-58 | the button path is taken exactly when both selection lists are non-empty, with their first items; otherwise the text path exactly when the content is non-blank; otherwise no recommendation |
| Diaries.IndexOf | src/main/java/com/steam/modeni/service/DiaryService.java:79-80 | the found position holds the id; no position does when none is found |
| Diaries.Updated | src/main/java/com/steam/modeni/service/DiaryService.java:92-100 | id, author and creation time never change; each field whose request value is null keeps its old value, the others take the request's |
| Diaries.TableValidAppend | src/main/java/com/steam/modeni/service/DiaryService.java:31-45 | saving a fresh-id diary for a user with no diary that day keeps ids unique and below the counter and one diary per user per day |
| Diaries.DiaryService.constructor | src/main/java/com/steam/modeni/service/DiaryService.java:29-61 | an empty, valid diary table over the given recommendation engine |
| Diaries.DiaryService.CreateDiary | src/main/java/com/steam/modeni/service/DiaryService.java:29-61 | fails exactly when the user already has a diary today, changing nothing; otherwise saves the new diary at the end of the table and adds exactly the recommendation rows of its dispatch path |
| Diaries.DiaryService.Recommend | src/main/java/com/steam/modeni/service/DiaryService.java:49-58 | the catalogue is unchanged and exactly the dispatch path's rows are appended to the recommendations |
| Diaries.DiaryService.UpdateDiary | src/main/java/com/steam/modeni/service/DiaryService.java:78-117 | succeeds exactly when the diary exists, belongs to the user and was created today; on success only that diary changes, to its updated form, and its dispatch rows are added; on failure nothing changes |
| Diaries.DiaryService.DeleteDiary | src/main/java/com/steam/modeni/service/DiaryService.java:119-129 | succeeds exactly when the diary exists and belongs to the user, then removes exactly that row; on failure nothing changes |
| Diaries.DiaryService.GetDiaryById | src/main/java/com/steam/modeni/service/DiaryService.java:162-174 | answers the diary exactly when it exists and the reader is its author or in its family |
| Diaries.DeleteRemovesExactly | src/main/java/com/steam/modeni/service/DiaryService.java:119-129 | deleting leaves one row fewer: every other diary and none with the deleted id |
| Diaries.TableValidReplace | src/main/java/com/steam/modeni/service/DiaryService.java:102 | saving an updated diary in place keeps the table valid |
| Diaries.TableValidRemove | src/main/java/com/steam/modeni/service/DiaryService.java:127 | removing a diary keeps the table valid |
| Diaries.OneDiaryPerDay | src/main/java/com/steam/modeni/service/DiaryService.java:31-34 | after a successful create the author has exactly one diary that day, the new one |
| Diaries.DispatchRowsBound | src/main/java/com/steam/modeni/service/DiaryService.java:49-58 | any save writes at most five recommendation rows, and none when there are no buttons and no text |
| EmotionAnalysis.CreateFallbackAnalysis | src/main/java/com/steam/modeni/service/EmotionAnalysisService.java:113-122 | whatever the text, the profile is the fixed neutral one: "중립", 0.5, keywords 일상/생활, category "평온", categories 문화/여가 |
| EmotionAnalysis.IsNegativeEmotion | src/main/java/com/steam/modeni/service/EmotionAnalysisService.java:124-127 | negative exactly when the primary emotion is "부정" or the category is one of the five negative categories; a missing category is an error only when the primary emotion is not "부정" |
| EmotionAnalysis.NeedsWelfareRecommendation | src/main/java/com/steam/modeni/service/EmotionAnalysisService.java:129-146 | true exactly when the profile is negative or some keyword contains some trigger word; an error exactly when the negativity test fails or, on a non-negative profile, the keyword list is missing |
| EmotionAnalysis.FallbackNeedsNoRecommendation | src/main/java/com/steam/modeni/service/EmotionAnalysisService.java:113-146 | the fallback profile never calls for a recommendation |
| EmotionAnalysis.NoTriggerIn | src/main/java/com/steam/modeni/service/EmotionAnalysisService.java:136-141 | neither fallback keyword contains a trigger word |
| EmotionAnalysis.ContainsShort | src/main/java/com/steam/modeni/service/EmotionAnalysisService.java:144 | a contained word is no longer than the text, equals it at equal length, and a one-character word is one of its characters |
| EmotionAnalysis.LabelEnd | src/main/java/com/steam/modeni/service/EmotionAnalysisService.java:102 | the end of the run of `[A-Z_]` characters: every character before it is a label character and the one at it is not |
| EmotionAnalysis.GroupEnd | src/main/java/com/steam/modeni/service/EmotionAnalysisService.java:102 | the lazy group ends at the first position from its earliest end where the lookahead (a line break and a label with a colon, or the end) holds |
| EmotionAnalysis.SkipSpaces | src/main/java/com/steam/modeni/service/EmotionAnalysisService.java:102 | the greedy `\s*`: every skipped character is a blank and the next is not |
| EmotionAnalysis.FirstFrom | src/main/java/com/steam/modeni/service/EmotionAnalysisService.java:103-104 | `find`: the first position at or after the start where the key and colon occur; none exactly when they occur nowhere from there |
| EmotionAnalysis.ValueFrom | src/main/java/com/steam/modeni/service/EmotionAnalysisService.java:102-105 | the captured value is already trimmed |
| EmotionAnalysis.ExtractValue | src/main/java/com/steam/modeni/service/EmotionAnalysisService.java:100-111 | the extracted value, when there is one, is trimmed |
| EmotionAnalysis.ValueReader | src/main/java/com/steam/modeni/service/EmotionAnalysisService.java:102-105 | the value read at any position is trimmed |
| EmotionAnalysis.ExtractValueNone | src/main/java/com/steam/modeni/service/EmotionAnalysisService.java:100-111 | the result is null exactly when every occurrence of "KEY:" ends the text, in particular when there is none |
| EmotionAnalysis.LabelEndShift | src/main/java/com/steam/modeni/service/EmotionAnalysisService.java:102 | a label's end does not move when text is put in front of it |
| EmotionAnalysis.FirstFromExtend | src/main/java/com/steam/modeni/service/EmotionAnalysisService.java:103 | the first occurrence in a prefix stays the first when text is appended |
| EmotionAnalysis.ExtractValueLine | src/main/java/com/steam/modeni/service/EmotionAnalysisService.java:34-44 | a response line written as the prompt asks ("KEY: value", followed by the end or the next label line) extracts exactly its value |
| EmotionAnalysis.ExtractChain | src/main/java/com/steam/modeni/service/EmotionAnalysisService.java:100-106 | the match position, the end of the blanks and the group together give the extracted value |
| EmotionAnalysis.ValueFromAt | src/main/java/com/steam/modeni/service/EmotionAnalysisService.java:102-105 | when text remains after the blanks, the value is the lazy group, trimmed |
| EmotionAnalysis.LineGroup | src/main/java/com/steam/modeni/service/EmotionAnalysisService.java:102 | the lazy group that starts at a value on its own line is exactly that value |
| EmotionAnalysis.LineStart | src/main/java/com/steam/modeni/service/EmotionAnalysisService.java:102-104 | "KEY: " written at a position is the first match and its blank ends where the value starts |
| EmotionAnalysis.LineBody | src/main/java/com/steam/modeni/service/EmotionAnalysisService.java:102 | the lookahead first holds where the value ends |
| EmotionAnalysis.ValueHasNoLookahead | src/main/java/com/steam/modeni/service/EmotionAnalysisService.java:102 | inside a value without line breaks the lookahead never holds |
| EmotionAnalysis.LineEnds | src/main/java/com/steam/modeni/service/EmotionAnalysisService.java:102 | after a line comes the end of the response or the next label line, where the lookahead holds |
| EmotionAnalysis.SplitList | src/main/java/com/steam/modeni/service/EmotionAnalysisService.java:62-68 | every item of a split list field is trimmed, non-empty and comma-free |
| EmotionAnalysis.SplitField | src/main/java/com/steam/modeni/service/EmotionAnalysisService.java:61-69 | a list field is set exactly when its line is present |
| EmotionAnalysis.ParseEmotionAnalysis | src/main/java/com/steam/modeni/service/EmotionAnalysisService.java:46-97 | no score line gives the fallback profile; every keyword and category is a clean item |
| EmotionAnalysis.ParseKeepsFields | src/main/java/com/steam/modeni/service/EmotionAnalysisService.java:46-91 | with a score line present, each other field is what its own line holds, whatever the score says, and an unreadable score becomes 0.5 |
| EmotionAnalysis.AnalyzeEmotion | src/main/java/com/steam/modeni/service/EmotionAnalysisService.java:23-31 | the profile is the parse of what the generator answers to the analysis prompt |
| EmotionAnalysis.SplitListJoin | src/main/java/com/steam/modeni/service/EmotionAnalysisService.java:62-68 | items written separated by ", " split back into exactly those items when they are clean and comma-free |
| EmotionAnalysis.SplitPadded | src/main/java/com/steam/modeni/service/EmotionAnalysisService.java:62-68 | the same holds with blanks in front of the first item |
| EmotionAnalysis.AnalyzeButtonBasedEmotion | src/main/java/com/steam/modeni/service/EmotionAnalysisService.java:157-204 | an error exactly when the emotion or the activity is missing; otherwise the button profile of the two values and the personality |
| EmotionAnalysis.BuildButtonKeywords | src/main/java/com/steam/modeni/service/EmotionAnalysisService.java:181-194 | the list appended step by step is the button keyword list: emotion, activity, activity words, personality words |
| EmotionAnalysis.BuildButtonCategories | src/main/java/com/steam/modeni/service/EmotionAnalysisService.java:275-320 | the list appended step by step is the button category list: "상담" for distressed emotions, activity categories, personality categories |
| EmotionAnalysis.WordListsAgree | src/main/java/com/steam/modeni/service/EmotionAnalysisService.java:161-164 | the service's positive and negative word lists are the Korean names of the positive and negative emotion keywords, in declaration order |
| EmotionAnalysis.WordsByIndex | src/main/java/com/steam/modeni/service/EmotionAnalysisService.java:161-164 | position by position, each word is the name of the constant at the same position |
| EmotionAnalysis.PositiveIndex | src/main/java/com/steam/modeni/domain/enums/EmotionKeyword.java:14-23 | the position of a positive keyword holds it among the positive constants |
| EmotionAnalysis.NegativeIndex | src/main/java/com/steam/modeni/domain/enums/EmotionKeyword.java:24-34 | the position of a negative keyword holds it among the negative constants |
| EmotionAnalysis.KeywordInWords | src/main/java/com/steam/modeni/service/EmotionAnalysisService.java:161-164 | a keyword's name is in the positive list exactly when it is positive, and in the negative list exactly when it is negative |
| EmotionAnalysis.ButtonPolarityOfKeyword | src/main/java/com/steam/modeni/service/EmotionAnalysisService.java:167-175 | every positive emotion button scores "긍정" 0.8 "행복", every negative one "부정" 0.3 "스트레스" |
| EmotionAnalysis.ButtonPolarityUnknown | src/main/java/com/steam/modeni/service/EmotionAnalysisService.java:175-179 | a word naming no emotion keyword is "중립" 0.5 "평온" |
| EmotionAnalysis.ButtonKeywordsShape | src/main/java/com/steam/modeni/service/EmotionAnalysisService.java:181-194 | the keywords start with the two button values, then three or four activity words, then six personality words when there is a personality |
| EmotionAnalysis.DefaultActivityCluster | src/main/java/com/steam/modeni/service/EmotionAnalysisService.java:206-246 | an activity falls to the default words exactly when it is 청소하기, 일기쓰기, 잠자기 or 장보기 |
| EmotionAnalysis.DefaultActivities | src/main/java/com/steam/modeni/service/EmotionAnalysisService.java:243-244 | those four activities get the three default words |
| EmotionAnalysis.NamedActivities | src/main/java/com/steam/modeni/service/EmotionAnalysisService.java:207-242 | every other activity gets four words of its own |
| EmotionAnalysis.ButtonCategoriesCounselling | src/main/java/com/steam/modeni/service/EmotionAnalysisService.java:275-343 | the list's length is counselling plus three plus personality; "상담" leads it exactly for the four distressed emotions and appears at all only for them or EMOTIONAL_RED |
| EmotionAnalysis.ActivityKeywordsTrigger | src/main/java/com/steam/modeni/service/EmotionAnalysisService.java:136-141 | every activity word list holds a trigger word |
| EmotionAnalysis.ButtonProfileNeedsRecommendation | src/main/java/com/steam/modeni/service/EmotionAnalysisService.java:129-246 | a button profile always calls for a recommendation, whatever emotion and personality |
| EmotionAnalysis.GeneratePersonalizedRecommendationReason | src/main/java/com/steam/modeni/service/EmotionAnalysisService.java:385-394 | the reason is the generator's answer to the personalised prompt |
| EmotionAnalysis.FallbackReasonContents | src/main/java/com/steam/modeni/service/EmotionAnalysisService.java:438-486 | the fallback reason opens on the emotion (a positive one only as "긍정적인 감정"), quotes the activity, names the program, and closes on the personal sentence exactly when a personality is known |
| CsvLoader.TrimAll | src/main/java/com/steam/modeni/service/CsvDataLoaderService.java:112-120 | every field is trimmed, one for one |
| CsvLoader.ParseCsvFields | src/main/java/com/steam/modeni/service/CsvDataLoaderService.java:101-122 | the character loop yields the specified fields: quotes flip the flag and vanish, commas outside quotes close a trimmed field, the last field is always added |
| CsvLoader.ScanCounts | src/main/java/com/steam/modeni/service/CsvDataLoaderService.java:105-117 | the in-quotes flag is the parity of the quotes seen, and one field is closed per comma read outside quotes |
| CsvLoader.FieldCount | src/main/java/com/steam/modeni/service/CsvDataLoaderService.java:101-122 | a line has exactly one field more than it has commas outside quotes |
| CsvLoader.PiecesJoin | src/main/java/com/steam/modeni/service/CsvDataLoaderService.java:105-120 | the untrimmed fields joined with "," give back the line minus its quote characters: nothing else is lost |
| CsvLoader.ScanFromConcat | src/main/java/com/steam/modeni/service/CsvDataLoaderService.java:105-117 | scanning a concatenation is scanning the second part from where the first left off |
| CsvLoader.DoubledQuoteVanishes | src/main/java/com/steam/modeni/service/CsvDataLoaderService.java:108-109 | a doubled quote leaves no trace in the fields (unlike RFC 4180, section 2, rule 7, which reads it as one literal quote) |
| CsvLoader.QuotedAbFields | src/main/java/com/steam/modeni/service/CsvDataLoaderService.java:101-122 | the quoted field "ab" reads as ab |
| CsvLoader.EscapedQuoteExample | src/main/java/com/steam/modeni/service/CsvDataLoaderService.java:101-122 | the RFC 4180 field "a""b" reads as ab, not a"b |
| CsvLoader.SkipSpaces | src/main/java/com/steam/modeni/service/CsvDataLoaderService.java:134 | `\s*`: every skipped character is a blank and the next is not |
| CsvLoader.FirstAt | src/main/java/com/steam/modeni/service/CsvDataLoaderService.java:135-136 | `find()`: the match at the leftmost position tried, none exactly when no position matches |
| CsvLoader.SetTargetAge | src/main/java/com/steam/modeni/service/CsvDataLoaderService.java:124-161 | the age bounds are set exactly as the first applicable rule says, and the program is unchanged when no rule applies |
| CsvLoader.ApplyCues | src/main/java/com/steam/modeni/service/CsvDataLoaderService.java:124-161 | the rule chain on the target's cues sets the bounds of the first rule that applies, or nothing |
| CsvLoader.GradeMatchBounds | src/main/java/com/steam/modeni/service/CsvDataLoaderService.java:134-148 | a grade match holds digits 1 to 6 |
| CsvLoader.AgeRuleBounds | src/main/java/com/steam/modeni/service/CsvDataLoaderService.java:124-161 | every bound written lies between 3 and 19, a maximum always comes with a minimum, and only a reversed grade range gives a minimum above the maximum |
| CsvLoader.BoundsForBounds | src/main/java/com/steam/modeni/service/CsvDataLoaderService.java:124-161 | the same bounds, stated on the cues of the target |
| CsvLoader.Tag.Name | src/main/java/com/steam/modeni/service/CsvDataLoaderService.java:163-218 | every tag word is non-empty and comma-free |
| CsvLoader.Names | src/main/java/com/steam/modeni/service/CsvDataLoaderService.java:220 | the tag words, one for one |
| CsvLoader.NamesConcat | src/main/java/com/steam/modeni/service/CsvDataLoaderService.java:220 | the words of two tag lists are the words of each, in order |
| CsvLoader.AddTags | src/main/java/com/steam/modeni/service/CsvDataLoaderService.java:167-201 | one name rule: its two tags are appended exactly when it applies |
| CsvLoader.NameKeywords | src/main/java/com/steam/modeni/service/CsvDataLoaderService.java:163-202 | the name rules appended one after the other give the specified tag list |
| CsvLoader.GenerateEmotionKeywords | src/main/java/com/steam/modeni/service/CsvDataLoaderService.java:163-221 | the method's string is the comma-joined tag list: name tags, target tags, then 문화 and 학습 |
| CsvLoader.TagStringShape | src/main/java/com/steam/modeni/service/CsvDataLoaderService.java:163-221 | the tag string always ends with "문화,학습" and splitting it on "," gives back the tag words |
| CsvLoader.TagStringEnds | src/main/java/com/steam/modeni/service/CsvDataLoaderService.java:216-220 | the tag string ends with the two default tags |
| CsvLoader.DefaultLast | src/main/java/com/steam/modeni/service/CsvDataLoaderService.java:216-220 | whatever tags come first, the joined list ends with "문화,학습" |
| CsvLoader.ParseCsvLine | src/main/java/com/steam/modeni/service/CsvDataLoaderService.java:58-98 | no program exactly when the line has fewer than nine fields; otherwise title, link, target, place and schedule come from fields 0, 2, 6, 7 and 8, with the fixed organisation, category, city, contact and active flag |
| CsvLoader.LoadedProgramIsCultural | src/main/java/com/steam/modeni/service/CsvDataLoaderService.java:58-98 | a loaded course is an active Seoul programme in category 문화 whose tags contain 문화 and 학습 |
| CsvLoader.ParsedPrograms | src/main/java/com/steam/modeni/service/CsvDataLoaderService.java:37-47 | no more programs than record lines |
| CsvLoader.Parsed | src/main/java/com/steam/modeni/service/CsvDataLoaderService.java:37-47 | no more accepted results than lines |
| CsvLoader.ParsedProgramsStep | src/main/java/com/steam/modeni/service/CsvDataLoaderService.java:43-46 | one more line adds its program exactly when the line is accepted |
| CsvLoader.LoadLines | src/main/java/com/steam/modeni/service/CsvDataLoaderService.java:26-48 | the line loop's list is the programs of the lines after the header, rejected lines dropped, in order |
| CsvLoader.AddLine | src/main/java/com/steam/modeni/service/CsvDataLoaderService.java:43-46 | one pass keeps the line's program exactly when it parses |
| CsvLoader.LoadDongjakLibraryCourses | src/main/java/com/steam/modeni/service/CsvDataLoaderService.java:26-56 | the loaded programs are appended to the catalogue in one save |
| CsvLoader.ParsedProgramsMembers | src/main/java/com/steam/modeni/service/CsvDataLoaderService.java:37-47 | a program is loaded exactly when some record line yields it |
| CsvLoader.ParsedMembers | src/main/java/com/steam/modeni/service/CsvDataLoaderService.java:37-47 | an accepted result appears exactly when some line yields it |
| CsvLoader.LoadedProgramsMembers | src/main/java/com/steam/modeni/service/CsvDataLoaderService.java:35-47 | a program is loaded exactly when some line after the first yields it, and fewer programs than lines are loaded |
| CsvLoader.ParsedAfterHeader | src/main/java/com/steam/modeni/service/CsvDataLoaderService.java:38-41 | after the skipped header, membership ranges over lines 1 onward |
| CsvLoader.ParsedProgramsConcat | src/main/java/com/steam/modeni/service/CsvDataLoaderService.java:37-47 | appending record lines appends their programs: the file order is kept |
| CsvLoader.ParsedConcat | src/main/java/com/steam/modeni/service/CsvDataLoaderService.java:37-47 | the accepted results of two line lists are those of each, in order |
| WelfareRecommendation.ParseAge | src/main/java/com/steam/modeni/service/WelfareRecommendationService.java:273-283 | an age is read only from present, non-blank text and always fits in 32 bits; anything else is null, never an exception |
| WelfareRecommendation.ParseAgeRoundTrip | src/main/java/com/steam/modeni/service/WelfareRecommendationService.java:273-283 | the decimal rendering of any 32-bit age reads back as that age |
| WelfareRecommendation.ParseAgeBlank | src/main/java/com/steam/modeni/service/WelfareRecommendationService.java:274-276 | missing or blank text is never an age |
| WelfareRecommendation.PersonalityScore | src/main/java/com/steam/modeni/service/WelfareRecommendationService.java:215-266 | the bonus is 0 or 0.15, and 0.15 exactly when there is a type and the program's text contains one of its words |
| WelfareRecommendation.PersonalityScoreOfTitle | src/main/java/com/steam/modeni/service/WelfareRecommendationService.java:215-266 | a program whose title is one of the type's words earns the bonus |
| WelfareRecommendation.TitleInSearchText | src/main/java/com/steam/modeni/service/WelfareRecommendationService.java:222-226 | the lower-cased title is part of the searched text |
| WelfareRecommendation.TraitWordsLower | src/main/java/com/steam/modeni/service/WelfareRecommendationService.java:227-261 | the trait words are unchanged by lower-casing |
| WelfareRecommendation.MatchCount | src/main/java/com/steam/modeni/service/WelfareRecommendationService.java:198-201 | the number of keywords found is at most the number of keywords |
| WelfareRecommendation.RelevanceScore | src/main/java/com/steam/modeni/service/WelfareRecommendationService.java:133-213 | the score lies between 0 and 1 |
| WelfareRecommendation.KeywordFactorBounds | src/main/java/com/steam/modeni/service/WelfareRecommendationService.java:198-203 | the keyword factor lies in [0, 0.30] and is 0 for a program without tags |
| WelfareRecommendation.ScoreIsSum | src/main/java/com/steam/modeni/service/WelfareRecommendationService.java:180-211 | the score is the sum of the region (0.30), age (0.20), keyword and category (0.20) factors, each earned exactly when its condition holds |
| WelfareRecommendation.AllKeywordsMatch | src/main/java/com/steam/modeni/service/WelfareRecommendationService.java:198-203 | when every keyword occurs in the tags the keyword factor is the full 0.30 |
| WelfareRecommendation.CalculateRelevanceScore | src/main/java/com/steam/modeni/service/WelfareRecommendationService.java:133-213 | the score accumulated step by step is the specified relevance score |
| WelfareRecommendation.CountMatches | src/main/java/com/steam/modeni/service/WelfareRecommendationService.java:199-201 | the counting stage yields the number of keywords found in the tags |
| WelfareRecommendation.KeywordHitsMember | src/main/java/com/steam/modeni/repository/WelfareProgramRepository.java:35-37 | a program is a keyword hit exactly when it is in the catalogue and some keyword matches it |
| WelfareRecommendation.CategoryHitsMember | src/main/java/com/steam/modeni/repository/WelfareProgramRepository.java:40 | a program is a category hit exactly when it is an active catalogue program in one of the categories |
| WelfareRecommendation.CandidatesMember | src/main/java/com/steam/modeni/service/WelfareRecommendationService.java:96-121 | a candidate is exactly an active catalogue program that passes the city and age query, carries a profile keyword in its tags, or belongs to a recommended category |
| WelfareRecommendation.GatherCandidates | src/main/java/com/steam/modeni/service/WelfareRecommendationService.java:97-121 | the list filled query by query is the specified candidate list |
| WelfareRecommendation.AddKeywordHits | src/main/java/com/steam/modeni/service/WelfareRecommendationService.java:108-113 | the keyword loop appends the hits of every keyword in order |
| WelfareRecommendation.AddCategoryHits | src/main/java/com/steam/modeni/service/WelfareRecommendationService.java:115-120 | the category loop appends the hits of every category in order |
| WelfareRecommendation.Rank | src/main/java/com/steam/modeni/service/WelfareRecommendationService.java:122-130 | never more than five programs |
| WelfareRecommendation.RankProperties | src/main/java/com/steam/modeni/service/WelfareRecommendationService.java:122-130 | the ranked list holds candidates scoring above 0.3, each once, best first; a candidate above 0.3 is left out only when five programs scoring at least as much were kept |
| WelfareRecommendation.TopOfSorted | src/main/java/com/steam/modeni/service/WelfareRecommendationService.java:125-129 | the first n of a stable descending sort are input elements, sorted, without repeats if the input has none, and an element is missing only when n at least as large were kept |
| WelfareRecommendation.TopMissing | src/main/java/com/steam/modeni/service/WelfareRecommendationService.java:129 | an element missing from the first n of a sorted permutation comes after n elements at least as large |
| WelfareRecommendation.FilterDistinct | src/main/java/com/steam/modeni/service/WelfareRecommendationService.java:123-124 | filtering after `distinct()` keeps the list free of repeats |
| WelfareRecommendation.DistinctPerm | src/main/java/com/steam/modeni/service/WelfareRecommendationService.java:125-128 | sorting a list without repeats keeps it without repeats |
| WelfareRecommendation.FindRecommendedPrograms | src/main/java/com/steam/modeni/service/WelfareRecommendationService.java:96-131 | an error exactly when the keyword or category list is missing; otherwise the ranked candidates |
| WelfareRecommendation.Recommended | src/main/java/com/steam/modeni/service/WelfareRecommendationService.java:96-131 | never more than five programs |
| WelfareRecommendation.RecommendedAreActive | src/main/java/com/steam/modeni/service/WelfareRecommendationService.java:96-131 | every recommended program is an active catalogue program |
| WelfareRecommendation.TemplateReasonContents | src/main/java/com/steam/modeni/service/WelfareRecommendationService.java:339-420 | the template reason is non-empty, names the program, ends on the comforting closing exactly for 우울함 and 불안함, and mentions culture for a culture category |
| WelfareRecommendation.ClosingsDiffer | src/main/java/com/steam/modeni/service/WelfareRecommendationService.java:412-416 | no reason ends with both closings |
| WelfareRecommendation.UnreachableTemplateBranches | src/main/java/com/steam/modeni/service/WelfareRecommendationService.java:357-390 | the 화남/짜증, 음악감상 and 영화감상 branches are never taken from the buttons, whose words are 짜증남, 음악듣기 and 영화보기 |
| WelfareRecommendation.RowsFor | src/main/java/com/steam/modeni/service/WelfareRecommendationService.java:289-316 | one row per program, in order |
| WelfareRecommendation.SavedRowContents | src/main/java/com/steam/modeni/service/WelfareRecommendationService.java:291-313 | each row belongs to the user and its program, carries the program's relevance score in [0, 1], the keywords joined by ", ", the analysis text, and the template or generator reason |
| WelfareRecommendation.RecommendationService.constructor | src/main/java/com/steam/modeni/service/WelfareRecommendationService.java:25-29 | an empty recommendation table over the given catalogue |
| WelfareRecommendation.RecommendationService.SaveRecommendations | src/main/java/com/steam/modeni/service/WelfareRecommendationService.java:289-316 | the catalogue is unchanged and exactly the rows for the programs are appended, in order |
| WelfareRecommendation.RecommendationService.SaveOne | src/main/java/com/steam/modeni/service/WelfareRecommendationService.java:291-315 | one loop turn extends the rows written by exactly the row of the next program |
| WelfareRecommendation.RecommendationService.AppendRow | src/main/java/com/steam/modeni/service/WelfareRecommendationService.java:292-333 | one row with its score and reason is appended; with the generator step its reason becomes the generator's answer |
| WelfareRecommendation.RecommendationService.ProcessEmotionAndRecommend | src/main/java/com/steam/modeni/service/WelfareRecommendationService.java:32-56 | the catalogue is unchanged and exactly the text path's rows are appended |
| WelfareRecommendation.RecommendationService.ProcessButtonBasedRecommend | src/main/java/com/steam/modeni/service/WelfareRecommendationService.java:70-94 | the catalogue is unchanged and exactly the button path's rows are appended |
| WelfareRecommendation.RecommendationService.RecommendByButtons | src/main/java/com/steam/modeni/service/WelfareRecommendationService.java:447-495 | the rows of every ranked program are saved and the answer is the first four, each with its template reason |
| WelfareRecommendation.BuildResponses | src/main/java/com/steam/modeni/service/WelfareRecommendationService.java:468-489 | one response per shown program, in order, each with its template reason |
| WelfareRecommendation.ResponsesFor | src/main/java/com/steam/modeni/service/WelfareRecommendationService.java:468-489 | one response per program, in order |
| WelfareRecommendation.TextRowsBounds | src/main/java/com/steam/modeni/service/WelfareRecommendationService.java:32-56 | the text path writes nothing unless the profile calls for a recommendation, nothing when the answer has no score line, and never more than five rows |
| WelfareRecommendation.ButtonResponsesMatchRows | src/main/java/com/steam/modeni/service/WelfareRecommendationService.java:447-495 | at most four responses, the first of the rows written and in the same order, each with its row's program and reason; a missing button value gives no rows and an empty answer |
| Numbers.DigitChar | src/main/java/com/steam/modeni/service/WelfareRecommendationService.java:278 | the character is a digit whose value is the given digit |
| Numbers.NatToString | src/main/java/com/steam/modeni/service/WelfareRecommendationService.java:278 | the rendering is a non-empty run of digits without a leading zero |
| Numbers.IntToString | src/main/java/com/steam/modeni/service/WelfareRecommendationService.java:278 | the rendering is never empty |
| Numbers.NatToStringValue | src/main/java/com/steam/modeni/service/WelfareRecommendationService.java:278 | the digits of a rendering denote the number rendered |
| Numbers.ParseInt | src/main/java/com/steam/modeni/service/WelfareRecommendationService.java:278 | `Integer.parseInt`: a parsed value always fits in 32 bits |
| Numbers.ParseIntRoundTrip | src/main/java/com/steam/modeni/service/WelfareRecommendationService.java:278 | parsing the rendering of a 32-bit integer gives it back |
| Numbers.ParseIntRejects | src/main/java/com/steam/modeni/service/WelfareRecommendationService.java:278 | text holding a character that is neither a digit nor a leading sign is rejected |
| Numbers.Pow10 | src/main/java/com/steam/modeni/service/EmotionAnalysisService.java:57 | a power of ten is positive |
| Numbers.DigitsEnd | src/main/java/com/steam/modeni/service/EmotionAnalysisService.java:57 | the end of a digit run: all digits before it, none at it |
| Numbers.ParseExponent | src/main/java/com/steam/modeni/service/EmotionAnalysisService.java:57 | the exponent ends within the text, after where it starts |
| Numbers.ParseDoubleNat | src/main/java/com/steam/modeni/service/EmotionAnalysisService.java:57 | `Double.parseDouble` reads a run of digits as the number it denotes |
| Numbers.ParseDoubleNeedsDigit | src/main/java/com/steam/modeni/service/EmotionAnalysisService.java:56-60 | text without a digit is never a number, so the score falls back to 0.5 |
| Text.ContainsIff | src/main/java/com/steam/modeni/service/EmotionAnalysisService.java:144 | `contains` holds exactly when the piece occurs at some position |
| Text.ContainsConcat | src/main/java/com/steam/modeni/service/EmotionAnalysisService.java:144 | text added on either side keeps a piece contained |
| Text.ContainsTransitive | src/main/java/com/steam/modeni/service/EmotionAnalysisService.java:144 | what a contained piece contains, the whole contains |
| Text.Trim | src/main/java/com/steam/modeni/service/DiaryService.java:195-203 | `trim`: no longer than the text, and without a space at either end |
| Text.IsBlankIff | src/main/java/com/steam/modeni/service/DiaryService.java:197 | blank exactly when every character is a space |
| Text.TrimNoop | src/main/java/com/steam/modeni/service/DiaryService.java:200 | text without outer spaces is its own trimmed form |
| Text.TrimIdempotent | src/main/java/com/steam/modeni/service/DiaryService.java:200 | trimming twice is trimming once |
| Text.Split | src/main/java/com/steam/modeni/service/DiaryService.java:199 | the pieces between separators: at least one, none holding the separator |
| Text.JoinConcat | src/main/java/com/steam/modeni/service/DiaryService.java:188 | joining two non-empty lists puts one separator between the parts |
| Text.SplitJoin | src/main/java/com/steam/modeni/service/DiaryService.java:182-203 | splitting undoes joining when no item holds the separator |
| Text.JoinSplit | src/main/java/com/steam/modeni/service/DiaryService.java:199 | joining the pieces with the separator gives the text back |
| Text.ToLower | src/main/java/com/steam/modeni/service/WelfareRecommendationService.java:221-223 | `toLowerCase`: one character for one, each lower-cased |
| Text.ToUpper | src/main/java/com/steam/modeni/service/MissionReviewReactionService.java:51 | `toUpperCase`: one character for one, each upper-cased |
| Text.TrimAndDropEmpty | src/main/java/com/steam/modeni/service/DiaryService.java:199-202 | the trim-and-drop-empty pipeline yields only clean items, never more than it was given |
| Text.TrimAndDropEmptyNoop | src/main/java/com/steam/modeni/service/DiaryService.java:199-202 | on clean items the pipeline changes nothing |
| Sequences.Filter | src/main/java/com/steam/modeni/service/WelfareRecommendationService.java:124 | `filter`: exactly the elements that pass, in order, never more than given |
| Sequences.FilterFull | src/main/java/com/steam/modeni/service/MissionService.java:106 | a filter keeps its whole input exactly when every element passes |
| Sequences.FindFirst | src/main/java/com/steam/modeni/domain/enums/WishActivity.java:50-55 | `filter(..).findFirst()`: an element that passes, preceded by none that passes; there is none exactly when no element passes |
| Sequences.FilterAppend | src/main/java/com/steam/modeni/service/WelfareRecommendationService.java:124 | filtering distributes over concatenation |
| Sequences.FilterIsSubsequence | src/main/java/com/steam/modeni/service/WelfareRecommendationService.java:124 | a filtered list is a subsequence of its input |
| Sequences.Dedup | src/main/java/com/steam/modeni/service/WelfareRecommendationService.java:123 | `distinct()`: the same elements, each once |
| Sequences.DedupOrder | src/main/java/com/steam/modeni/service/WelfareRecommendationService.java:123 | the kept elements come in the order of their first occurrences |
| Sequences.DedupDistinct | src/main/java/com/steam/modeni/service/WelfareRecommendationService.java:123 | a list without repeats is left as it is |
| Sequences.SortDesc | src/main/java/com/steam/modeni/service/WelfareRecommendationService.java:125-128 | a permutation of the input, sorted by descending key |
| Sequences.SortDescStable | src/main/java/com/steam/modeni/service/WelfareRecommendationService.java:125-128 | elements with equal keys keep their relative order |
| Sequences.SortDescSorted | src/main/java/com/steam/modeni/service/WelfareRecommendationService.java:125-128 | a list already sorted descending is left as it is |
| Sequences.Take | src/main/java/com/steam/modeni/service/WelfareRecommendationService.java:129 | `limit(n)`: the first n elements, or all of them when fewer |
| Sequences.Map | src/main/java/com/steam/modeni/service/WelfareRecommendationService.java:291-313 | one result per element, each the function of that element |
| Sequences.SortAsc | src/main/java/com/steam/modeni/repository/ReactionRepository.java:20 | `OrderBy…Asc`: a permutation of the rows with the same members, ordered by ascending key |

## Left out

- HTTP controllers, security filters, and the account and family services (`AuthService`, `FamilyService`, `UserService`) are not part of this model. The user and family tables are read-only inputs.
- The OpenAI client is a caller-supplied total function from prompt to answer. `generateSimpleResponse` answers with an error text instead of throwing, so the catch branch of `generatePersonalizedRecommendationReason` cannot be reached. `GenerateFallbackRecommendationReason` is modelled on its own. The prompt wording is carried through as text, with no property stated about it.
- `java.util.Random`, `String.hashCode` and `LocalDate.now()`/`LocalDateTime.now()` are parameters. A picker's value is reduced into the table's index range. Seeds are unbounded integers, so two seeds that collide only under 64-bit `long` wrap-around are not identified.
- UserDailyQuestions.NewEntry: the `(int)` cast of the day count is not modelled, because a day count above 2^31 cannot occur between a join date and today.
- File reading in `loadDongjakLibraryCourses` (class-path resource, UTF-8 decoding, the reader) is replaced by the file's lines as a parameter. A failure to read the file is not modelled.
- `QuestionInitService`, `WelfareProgramDataLoader` and the other startup seeding are not part of this model.
- `@Async` executors and the thread safety of the daily-question cache are not modelled. Each pipeline runs sequentially, and `generateAndUpdateGptReason` runs inline as the private self-call it is.
- Scores are exact reals. IEEE rounding of a sum that lands within a rounding error of the 0.3 threshold is not modelled.
- The inactive personality regime of `calculateRelevanceScore` (`hasPersonality` is fixed to false) is left out. Only its bonus function `calculatePersonalityScore` is modelled.
- `ParseDouble` reads decimal text with an optional point, exponent and type suffix. Java's `NaN`, `Infinity` and hexadecimal forms are read as malformed. A finite text whose value is out of `double` range (such as `1e400`) is read as its exact value, where Java gives `Infinity`. `ParseInt` and `ParseDouble` accept ASCII digits only, where Java's parsers also accept the decimal digits of other scripts.
- `ToLower` and `ToUpper` fold ASCII letters only. Java's locale-sensitive case mapping of other letters is not modelled; every word compared in the source is Korean or ASCII.
- Java's one-argument `split` also drops trailing empty pieces. `Text.Split` keeps them. Every caller trims and drops empty items afterwards, so the results agree.
- Persistence: ids are assigned from a counter on save, and a loaded programme has id 0 until it is saved. JPA lazy loading, cascades and `@Transactional` rollback are not modelled beyond what each method's error path leaves unchanged.
- Source type mismatches are resolved to one type each:
  - family codes are one integer type;
  - the user's age is optional text and the user's place is an optional `Region`;
  - `City.SEOUL` is `Region.Seoul`.
  - `UserRepository` declares only `countByFamily(Family)`, yet `findByFamilyCode` and `countByFamilyCode` are called at UserDailyQuestionService.java:66, 90 and 120, QuestionService.java:87, DiaryService.java:145 and MissionService.java:106, and `findByFamilyCodeAndIdNot` at DiaryService.java:157. The model reads each as "the users whose family code is the given one", and "all but the given user" for the last;
  - `AnswerService` compares `user.getFamily().getId()` (lines 37 and 114), the database id of the `Family` entity. The model compares the user's family code, read as identifying the same family.
- `ReactionType` and the `MissionReview` entities are not part of this model. Reaction types are a caller-supplied set of names, and the review fields are those the services set.
- Repository listings that only pass a query through are not modelled: `getUserDiaries`, `getTodayDiary`, `getDiariesByDateRange`, `searchDiariesByEmotion`, `getFamilyDiaries`, `getFamilyDiariesExceptMine`, `getReactionById`, `getReactionsByAnswer`, `getAnswerById`, `getAnswersByQuestion`, `getCurrentMissions`, `getCompletedMissions`, `getAllMissions`, `getReviewsByMission`, `getReviewsByUser`, `getReviewById`, `getReactionsByReview`, `getReactionsByUser`, `getReactionCount`, `getUserRecommendations`, `getUnreadRecommendations`, `getRecommendationDetail`, `searchPrograms` and `getPersonalizedRecommendations`. Orderings by a descending date are among them.
- Questions.ConvertForFamily: `convertQuestionForFamily` sets the field on the loaded entity in place. The model returns a new value, so aliasing between the returned question and the cached entity is not captured.
- `findByFamilyCodeOrFamilyCode` returns the rows in table order; the database order is not modelled.
- A programme whose `category` column is null (the column is nullable, WelfareProgram.java:33-34) is not modelled: `Program.category` is always a string. In the source, the template reason's `program.getCategory().contains(..)` (WelfareRecommendationService.java:399) then throws in the middle of the `saveRecommendations` loop. The exception is caught by the calling pipeline in the same transaction, so the rows saved before it are kept and the rest of the list is skipped.
- MissionReviewReactions.CountFor: its own contract only bounds the count by the table size. The count after a toggle is stated by `ToggledCount` and `ToggleReaction`.
