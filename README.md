# Study app core, modelled in Dafny

This project models the logic of a React study app: a shared notes store kept in browser storage, and the state and handlers of eight sections.

- **Knowledge graph** (`SolarSystemSection`): note nodes, links between them, and a side sheet that edits, adds or deletes a note.
- **Notes** (`NotesSection`): search, creating a note from a draft with comma-separated tags, and starring.
- **Formulas** (`FormulasSection`): search with subject and difficulty filters, the subject list, starring, and adding a formula.
- **Flashcards** (`FlashcardsSection`): category filter, flip, next and previous, and marking an answer, which updates the card's statistics and moves on after a delay.
- **Previous-year questions** (`PYQSection`):
  - practice with a streak;
  - a timed exam that ends when the clock reaches zero;
  - results and the wrong-question list;
  - a trainer over the wrong questions;
  - the countdown to an exam date.
- **Study planner** (`StudyPlannerSection`): the session timer, ending a session, the `h:mm:ss` display and the upcoming-session list.
- **Gamified learning** (`GameifiedLearningSection`): claiming a challenge, level XP, and the time left before a challenge expires.
- **Doubts chat** (`DoubtsClearingSection`): sending a question, and the assistant's keyword-routed reply.

Each component's state is a `class`. Its fields are the component's `useState` variables, and each handler is a method that says what the new state is. The pure computations the handlers use are functions, and lemmas state what these functions promise.

JavaScript behaviour is written out where it matters:
- `trim` is `Text.Trim`.
- `toLowerCase` and `includes` are `Text.Lower` and `Text.Includes`.
- `split` and `join` are `Text.Split` and `Text.Join`.
- `padStart` is `Text.PadTwo`.
- `Math.floor` on non-negative values is Dafny's `/`.
- `%` on possibly negative numbers is `Numbers.JsRem`.
- `Math.round(x / 60)` is `StudyPlanner.RoundedMinutes`.
- Truthiness: `!linkSource` treats `0` as missing, and `notes || …` treats `""` as missing.

Each `Date.now()` id or date stamp is passed as a parameter (`freshId`, `today`, `now`). Each `setInterval` and `setTimeout` callback is a `Tick` method that the environment calls.

## Model

| member | source | states |
|---|---|---|
| NotesStore.GetNotes | src/store/notesStore.ts:19-28 | a missing, empty, unparseable or non-array item reads as the empty list; a stored array reads back as itself |
| NotesStore.Broadcast | src/store/notesStore.ts:32 | a save calls each subscriber exactly once, in subscription order, with the saved list |
| NotesStore.IndexOfId | src/store/notesStore.ts:37 | -1 exactly when no note has the id; otherwise the first position with that id |
| NotesStore.UpsertExisting | src/store/notesStore.ts:37-38 | for an id already present, only the first note with that id is replaced, in place; the length and every other entry stay |
| NotesStore.UpsertNew | src/store/notesStore.ts:38 | a new id puts the note at the front, with the old list unchanged behind it |
| NotesStore.UpsertThenLookup | src/store/notesStore.ts:35-39 | after an upsert, looking up the id finds exactly the upserted note |
| NotesStore.UpsertKeepsIdsUnique | src/store/notesStore.ts:35-39 | an upsert keeps ids unique when they were unique before |
| NotesStore.RemoveSpec | src/store/notesStore.ts:42-45 | after removal no note has the id, every note with another id is kept, and the order is preserved |
| NotesStore.RemoveIdempotent | src/store/notesStore.ts:42-45 | removing an id twice is the same as removing it once |
| NotesStore.UnsubscribeRemovesOne | src/store/notesStore.ts:49-52 | unsubscribing removes exactly one occurrence of the callback, or nothing if it is absent, and keeps the order of the rest |
| NotesStore.UnsubscribeTwice | src/store/notesStore.ts:49-52 | calling the unsubscribe function of a callback subscribed once a second time changes nothing |
| NotesStore.SubscribeThenUnsubscribe | src/store/notesStore.ts:47-52 | subscribing a new callback and then unsubscribing it restores the subscriber list |
| NotesStore.SharedNotesStore.SaveNotes | src/store/notesStore.ts:30-33 | the list is stored under the key, reads back as itself, and every subscriber is called with it in order; the loop's invariant is the delivery log so far |
| NotesStore.SharedNotesStore.UpsertNote | src/store/notesStore.ts:35-40 | saves the upserted list read from storage and broadcasts it |
| NotesStore.SharedNotesStore.RemoveNote | src/store/notesStore.ts:42-45 | saves the list without the id and broadcasts it |
| NotesStore.SharedNotesStore.Subscribe | src/store/notesStore.ts:47-48 | appends the callback; storage and deliveries are unchanged |
| NotesStore.SharedNotesStore.Unsubscribe | src/store/notesStore.ts:49-52 | removes the first occurrence of the callback, if any |
| KnowledgeGraph.NodeIndex | src/components/SolarSystemSection.tsx:90 | -1 exactly when no node has the id; otherwise the first position holding that id |
| KnowledgeGraph.InitialGraphValid | src/components/SolarSystemSection.tsx:18-23 | the starting notes and links satisfy the graph invariants: unique ids, endpoints exist, no self-links, no duplicate pairs |
| KnowledgeGraph.LinkKeepsSimple | src/components/SolarSystemSection.tsx:68-69 | a link added only between two different, not yet joined nodes keeps the graph free of self-links and duplicate pairs |
| KnowledgeGraph.SubsequenceKeepsSimple | src/components/SolarSystemSection.tsx:107 | keeping some links, in order, keeps them free of self-links and duplicate pairs |
| KnowledgeGraph.DetachSpec | src/components/SolarSystemSection.tsx:107 | the cascade keeps exactly the links touching neither end of the deleted id, in order |
| KnowledgeGraph.DeleteKeepsInvariant | src/components/SolarSystemSection.tsx:105-111 | deleting a node with its links keeps every graph invariant, referential integrity included |
| KnowledgeGraph.SubsequenceKeepsUnique | src/components/SolarSystemSection.tsx:108 | keeping some nodes keeps their ids unique |
| KnowledgeGraph.EditKeepsInvariant | src/components/SolarSystemSection.tsx:89-96 | editing a node's title and content keeps the graph invariants |
| KnowledgeGraph.AppendKeepsInvariant | src/components/SolarSystemSection.tsx:97-100 | appending a node with an unused id keeps the graph invariants |
| KnowledgeGraph.GraphEditor.constructor | src/components/SolarSystemSection.tsx:28-34 | the initial graph, sheet closed, link mode off, empty form |
| KnowledgeGraph.GraphEditor.NodeClick | src/components/SolarSystemSection.tsx:64-79 | in link mode the first click picks the source and the second links the two nodes when allowed, then leaves link mode, the node list, the open node and the form unchanged; otherwise the node opens in the sheet |
| KnowledgeGraph.GraphEditor.AddClick | src/components/SolarSystemSection.tsx:81-85 | leaves link mode and opens an empty form with no current node; the graph is unchanged |
| KnowledgeGraph.GraphEditor.EditForm | src/components/SolarSystemSection.tsx:156-163 | the form holds what was typed |
| KnowledgeGraph.GraphEditor.CloseSheet | src/components/SolarSystemSection.tsx:172 | only the sheet closes |
| KnowledgeGraph.GraphEditor.Save | src/components/SolarSystemSection.tsx:87-103 | a blank title changes nothing; otherwise the current node is updated in place, or a node with the fresh id is appended, and the sheet closes; the invariants hold |
| KnowledgeGraph.GraphEditor.Delete | src/components/SolarSystemSection.tsx:105-111 | without a current node nothing changes; otherwise the node and every link touching it go and the sheet closes; the invariants hold |
| KnowledgeGraph.GraphEditor.ToggleLinking | src/components/SolarSystemSection.tsx:113-116 | forgets the link source and flips link mode |
| NotesSection.SearchSpec | src/components/NotesSection.tsx:83-87 | the search keeps exactly the notes whose title, content or some tag contains the term, ignoring case, in their order |
| NotesSection.EmptySearchKeepsAll | src/components/NotesSection.tsx:83-87 | an empty search term keeps every note |
| NotesSection.SearchIdempotent | src/components/NotesSection.tsx:83-87 | searching the result again with the same term changes nothing |
| NotesSection.ParsedTagsWellFormed | src/components/NotesSection.tsx:95 | no parsed tag is empty, starts or ends with whitespace, or contains a comma |
| NotesSection.ParsedTagsComplete | src/components/NotesSection.tsx:95 | the tags are exactly the trimmed non-blank comma-separated pieces, in order, each tag as many times as it is written |
| NotesSection.CreatedSpec | src/components/NotesSection.tsx:89-98 | no note exactly when the title or the content is blank; otherwise the note has the fresh id, today's date, the draft's title and content, the parsed tags, and neither star nor AI flag |
| NotesSection.ToggledStar | src/components/NotesSection.tsx:107-111 | only the notes with the id change, and only in their star |
| NotesSection.ToggleStarInvolution | src/components/NotesSection.tsx:107-111 | toggling the same note twice restores the list |
| NotesSection.NotesBoard.constructor | src/components/NotesSection.tsx:65-68 | the given notes, empty search and draft, nothing selected |
| NotesSection.NotesBoard.CreateNote | src/components/NotesSection.tsx:89-105 | a blank draft changes nothing; otherwise the note goes in front, the draft is cleared, the form closes and the note is selected |
| NotesSection.NotesBoard.ToggleStar | src/components/NotesSection.tsx:107-111 | the list becomes the toggled list |
| NotesSection.NotesBoard.SetSearchTerm | src/components/NotesSection.tsx:155 | the search term becomes the typed text |
| NotesSection.NotesBoard.SetCreating | src/components/NotesSection.tsx:168 | New Note opens the form and Cancel closes it; the draft is kept |
| NotesSection.NotesBoard.EditDraft | src/components/NotesSection.tsx:261-275 | the draft holds the typed title, content and tags |
| NotesSection.NotesBoard.SelectNote | src/components/NotesSection.tsx:192 | the clicked note becomes the selected one |
| Formulas.FilterSpec | src/components/FormulasSection.tsx:148-156 | the filter keeps exactly the formulas passing the search, subject and difficulty tests, in order |
| Formulas.DefaultFilterKeepsAll | src/components/FormulasSection.tsx:148-156 | no search, all subjects and all difficulties keep every formula |
| Formulas.SubjectsSpec | src/components/FormulasSection.tsx:145 | every subject of some formula is listed, only those, once each, in order of first occurrence |
| Formulas.ToggledStar | src/components/FormulasSection.tsx:169-173 | only the formulas with the id change, and only in their star |
| Formulas.ToggleStarInvolution | src/components/FormulasSection.tsx:169-173 | toggling the same formula twice restores the list |
| Formulas.OrDefault | src/components/FormulasSection.tsx:284-285 | never empty; a non-empty value is kept and an empty one becomes "General" |
| Formulas.FormulaBook.constructor | src/components/FormulasSection.tsx:130-142 | the given formulas, no search, all subjects and difficulties, nothing selected |
| Formulas.FormulaBook.ToggleStar | src/components/FormulasSection.tsx:169-173 | the list becomes the toggled list |
| Formulas.FormulaBook.SetSearchTerm | src/components/FormulasSection.tsx:213 | the search term becomes the typed text |
| Formulas.FormulaBook.SelectSubject | src/components/FormulasSection.tsx:220 | the subject filter becomes the chosen value |
| Formulas.FormulaBook.SelectDifficulty | src/components/FormulasSection.tsx:231 | the difficulty filter becomes the chosen value |
| Formulas.FormulaBook.ToggleAdding | src/components/FormulasSection.tsx:252 | the Add Formula button opens the form, or closes it when open; the draft is kept |
| Formulas.FormulaBook.EditDraft | src/components/FormulasSection.tsx:258-267 | the draft holds the typed fields and the chosen difficulty |
| Formulas.FormulaBook.SelectFormula | src/components/FormulasSection.tsx:311 | the clicked formula becomes the selected one |
| Formulas.FormulaBook.SaveFormula | src/components/FormulasSection.tsx:277-296 | an empty name or formula changes nothing; otherwise the new formula goes in front and is selected, and the form is reset and closed |
| Flashcards.FilteredCardsSpec | src/components/FlashcardsSection.tsx:88-90 | "all" shows the whole deck; any other choice shows exactly that category's cards, in order |
| Flashcards.CategoriesSpec | src/components/FlashcardsSection.tsx:87 | every card's category is listed, only those, once each, in order of first occurrence |
| Flashcards.NextIndex | src/components/FlashcardsSection.tsx:118 | stays inside the deck, moves one on, and wraps from the last card to the first |
| Flashcards.PrevIndex | src/components/FlashcardsSection.tsx:124 | stays inside the deck, moves one back, and wraps from the first card to the last |
| Flashcards.NextPrevInverse | src/components/FlashcardsSection.tsx:117-127 | next and previous undo each other |
| Flashcards.MarkedCards | src/components/FlashcardsSection.tsx:136-145 | only the marked card changes: one more attempt, one more correct answer when correct, reviewed today |
| Flashcards.MarkKeepsAccuracyBounded | src/components/FlashcardsSection.tsx:136-145 | marking keeps every card's correct count within its attempts |
| Flashcards.FlashcardDeck.constructor | src/components/FlashcardsSection.tsx:78-83 | the given deck, first card, face up, browse mode, all categories, empty session |
| Flashcards.FlashcardDeck.SelectCategory | src/components/FlashcardsSection.tsx:229-230 | the category changes and the index is not reset |
| Flashcards.FlashcardDeck.OpenCard | src/components/FlashcardsSection.tsx:250-252 | opens the clicked card in study mode |
| Flashcards.FlashcardDeck.FlipCard | src/components/FlashcardsSection.tsx:112-115 | flip and answer visibility change together |
| Flashcards.FlashcardDeck.NextCard | src/components/FlashcardsSection.tsx:117-121 | moves to the next index and turns the card face up |
| Flashcards.FlashcardDeck.PrevCard | src/components/FlashcardsSection.tsx:123-127 | moves to the previous index and turns the card face up |
| Flashcards.FlashcardDeck.MarkAnswer | src/components/FlashcardsSection.tsx:129-150 | the session counts grow, the current card's statistics update, and an advance is scheduled with the card count the handler saw |
| Flashcards.FlashcardDeck.Tick | src/components/FlashcardsSection.tsx:147-149 | the oldest scheduled advance runs as `nextCard` with the card count it captured |
| Flashcards.FlashcardDeck.SetStudyMode | src/components/FlashcardsSection.tsx:186 | switches between browsing and studying |
| Exam.CalculateResults | src/components/PYQSection.tsx:204-213 | one result per question, in order; correct exactly when the recorded answer is the right option; unanswered exactly when no answer is recorded; every result records 30 seconds taken |
| Exam.WrongQuestionsSpec | src/components/PYQSection.tsx:217-219 | the wrong questions are exactly those unanswered or answered differently, in question order |
| Exam.CorrectAndWrongPartition | src/components/PYQSection.tsx:203-223 | the correct results plus the wrong questions number exactly the questions |
| Exam.QuestionById | src/components/PYQSection.tsx:254 | none exactly when no question has the id; otherwise the first question with it |
| Exam.NextQuestionIndex | src/components/PYQSection.tsx:232-237 | one more unless on the last question; stays inside the list |
| Exam.PrevQuestionIndex | src/components/PYQSection.tsx:239-244 | one less unless on the first question; stays inside the list |
| Exam.StreakAfter | src/components/PYQSection.tsx:256-263 | a right answer extends the streak and lifts the best to at least it; a wrong one resets the streak and keeps the best; the streak never passes the best |
| Exam.FormatTimeRoundTrip | src/components/PYQSection.tsx:284-288 | `mm:ss` reads back: two digit groups of at least two characters, seconds below 60, minutes times 60 plus seconds is the input |
| Exam.CountdownFor | src/components/PYQSection.tsx:161-170 | all zero once the date has passed; otherwise hours below 24, and minutes and seconds below 60 |
| Exam.CountdownDecomposition | src/components/PYQSection.tsx:162-167 | days, hours, minutes and seconds add back up to the distance less its milliseconds |
| Exam.ExamSession.constructor | src/components/PYQSection.tsx:100-115 | the menu with no answers, no results, a 60-minute limit and no deadline |
| Exam.ExamSession.SetTimeLimit | src/components/PYQSection.tsx:424 | the limit becomes the typed minutes |
| Exam.ExamSession.EndExam | src/components/PYQSection.tsx:195-201 | stops the exam and its clock, stores the results and wrong questions for the recorded answers, and shows them |
| Exam.ExamSession.StartExam | src/components/PYQSection.tsx:179-193 | a fresh exam with the clock at the limit in seconds; a zero limit ends it at once through the timer effect |
| Exam.ExamSession.Tick | src/components/PYQSection.tsx:140-152 | the clock loses one second, and reaching zero ends the exam with its results |
| Exam.ExamSession.NextQuestion | src/components/PYQSection.tsx:232-237 | the index moves as `NextQuestionIndex` over the current question list |
| Exam.ExamSession.PreviousQuestion | src/components/PYQSection.tsx:239-244 | the index moves as `PrevQuestionIndex` |
| Exam.ExamSession.SelectAnswer | src/components/PYQSection.tsx:246-270 | records the answer for that question only; in practice mode a known question updates the streak by `StreakAfter` |
| Exam.ExamSession.StartTrainer | src/components/PYQSection.tsx:272-282 | with no wrong questions nothing changes; otherwise the trainer starts on the first wrong question with no answers |
| Exam.ExamSession.CountdownTick | src/components/PYQSection.tsx:155-171 | the countdown becomes the one for the time left to the deadline |
| Exam.ExamSession.SetDeadline | src/components/PYQSection.tsx:487-491 | the deadline becomes the chosen date, or none |
| Exam.ExamSession.StartPractice | src/components/PYQSection.tsx:374 | practice mode |
| Exam.ExamSession.BackToMenu | src/components/PYQSection.tsx:555 | back to the menu |
| Exam.ExamSession.CloseResults | src/components/PYQSection.tsx:879-880 | back to the menu with the results hidden |
| StudyPlanner.RoundedMinutes | src/components/StudyPlannerSection.tsx:140 | the whole number of minutes nearest to the seconds, halves rounded up |
| StudyPlanner.CompletedSessions | src/components/StudyPlannerSection.tsx:141-149 | only the ended session changes: completed, with its minutes, and its notes kept or defaulted |
| StudyPlanner.UpcomingSpec | src/components/StudyPlannerSection.tsx:197-201 | at most five sessions, each still to come and not completed, in list order; with fewer than five, none was left out |
| StudyPlanner.UpcomingFirstFive | src/components/StudyPlannerSection.tsx:197-201 | exactly five sessions are listed, or all upcoming ones when there are fewer, and they are the first upcoming sessions: all upcoming sessions of a leading part of the list |
| StudyPlanner.FormatTimeRoundTrip | src/components/StudyPlannerSection.tsx:162-171 | the display reads back: `h:mm:ss` exactly from one hour on, `mm:ss` before, with minutes and seconds always exactly two digits and below 60, and its groups evaluate in base 60 to the input |
| StudyPlanner.StudyTimer.constructor | src/components/StudyPlannerSection.tsx:94-96 | the timer is stopped with no session |
| StudyPlanner.StudyTimer.StartSession | src/components/StudyPlannerSection.tsx:129-136 | runs the timer from zero on that session |
| StudyPlanner.StudyTimer.Tick | src/components/StudyPlannerSection.tsx:101-109 | one more second while a session is running |
| StudyPlanner.StudyTimer.EndSession | src/components/StudyPlannerSection.tsx:138-160 | with an active session it is recorded as completed with its rounded minutes and the timer resets; otherwise nothing changes |
| Gamification.LevelXP | src/components/GameifiedLearningSection.tsx:155-156 | the next level needs level times 250; the shown XP is below 250 and differs from the total by whole levels |
| Gamification.CompletedChallenges | src/components/GameifiedLearningSection.tsx:197-201 | only the challenges with the id change: completed, with progress at the target |
| Gamification.CompletedNotOffered | src/components/GameifiedLearningSection.tsx:346-384 | after completion a challenge no longer offers its reward, and no other offer changes |
| Gamification.CompleteIdempotent | src/components/GameifiedLearningSection.tsx:197-201 | completing the same challenge again changes no challenge |
| Gamification.ChallengeById | src/components/GameifiedLearningSection.tsx:203 | none exactly when no challenge has the id; otherwise the first with it |
| Gamification.RemainingFor | src/components/GameifiedLearningSection.tsx:179-194 | expired exactly for a past date; days and hours beyond 24 hours, hours and minutes from one hour on, minutes before; each shown amount brackets the time left |
| Gamification.FormatTimeRemainingShape | src/components/GameifiedLearningSection.tsx:179-194 | only a past date reads "Expired"; any other text starts with a digit and ends in `h` or `m` |
| Gamification.Scoreboard.constructor | src/components/GameifiedLearningSection.tsx:54-56 | the given challenges, level, XP and points |
| Gamification.Scoreboard.CompleteChallenge | src/components/GameifiedLearningSection.tsx:196-211 | completes the challenge and adds the reward of the first challenge with the id to points and XP; an unknown id adds nothing |
| DoubtsChat.FirstMentioned | src/components/DoubtsClearingSection.tsx:98-107 | the first topic, in order, that the message mentions; none exactly when it mentions none |
| DoubtsChat.RouteIsFirstMentioned | src/components/DoubtsClearingSection.tsx:96-108 | the keyword chain picks exactly the first mentioned topic in the fixed order |
| DoubtsChat.RouteCaseInsensitive | src/components/DoubtsClearingSection.tsx:96 | the routing ignores case |
| DoubtsChat.FallbackEchoes | src/components/DoubtsClearingSection.tsx:109 | the general answer names the subject and quotes the message unchanged |
| DoubtsChat.GenerateReplySpec | src/components/DoubtsClearingSection.tsx:91-120 | a message mentioning a topic gets that topic's answer whatever the subject; any other message gets the general answer |
| DoubtsChat.AppendReplyKeepsOrder | src/components/DoubtsClearingSection.tsx:147 | an answer appended after a question keeps every answer right after a question |
| DoubtsChat.AppendQuestionKeepsOrder | src/components/DoubtsClearingSection.tsx:133 | a question appended keeps every answer right after a question |
| DoubtsChat.DoubtsChat.constructor | src/components/DoubtsClearingSection.tsx:36-47 | the welcome message, an empty input, the general subject, not typing |
| DoubtsChat.DoubtsChat.SetInput | src/components/DoubtsClearingSection.tsx:281 | the input becomes the typed, dictated or prompted text |
| DoubtsChat.DoubtsChat.SelectSubject | src/components/DoubtsClearingSection.tsx:323 | the subject becomes the chosen one |
| DoubtsChat.DoubtsChat.Send | src/components/DoubtsClearingSection.tsx:123-135 | blank input does nothing; otherwise the untrimmed input becomes a question, the box clears, and a reply is awaited for that text and subject |
| DoubtsChat.DoubtsChat.Complete | src/components/DoubtsClearingSection.tsx:137-152 | on success the reply to the awaited question is appended; typing stops either way |
| Text.Trim | src/components/NotesSection.tsx:90 | never longer; empty exactly for a blank string; otherwise no whitespace at either end |
| Text.TrimIsInfix | src/components/NotesSection.tsx:90 | the input is the trimmed text with only whitespace before and after it |
| Text.TrimIdempotent | src/components/NotesSection.tsx:95 | trimming twice is trimming once |
| Text.Lower | src/components/NotesSection.tsx:84 | same length, each ASCII capital lowered, every other character kept |
| Text.LowerIdempotent | src/components/NotesSection.tsx:84 | lowering leaves no ASCII capital, so lowering twice is lowering once |
| Text.Includes | src/components/NotesSection.tsx:84 | true exactly when the term occurs at some position |
| Text.Split | src/components/NotesSection.tsx:95 | at least one piece, none containing the separator |
| Text.JoinSplit | src/components/NotesSection.tsx:95 | joining the pieces with the separator gives back the input |
| Text.SplitJoin | src/components/NotesSection.tsx:95 | separator-free pieces, joined and split again, come back unchanged |
| Text.ParseNatToString | src/components/StudyPlannerSection.tsx:168 | a rendered whole number reads back as itself |
| Text.PadTwo | src/components/StudyPlannerSection.tsx:168 | exactly two characters, or the input unchanged when longer; the input at the end, zeros in front |
| Text.PadTwoWidth | src/components/StudyPlannerSection.tsx:168-170 | a number below 100 is shown padded in exactly two characters |
| Text.ParsePadTwo | src/components/StudyPlannerSection.tsx:168 | a zero-padded number still reads back as itself |
| Text.IntToString | src/components/PYQSection.tsx:287 | the digits of the magnitude, with a minus sign exactly for a negative number |
| Collections.Distinct | src/components/FormulasSection.tsx:145 | every value once, only values of the input |
| Collections.DistinctFirstOccurrenceOrder | src/components/FormulasSection.tsx:145 | the distinct values appear in the order of their first occurrence |
| Collections.FindIndex | src/store/notesStore.ts:37 | -1 exactly when no element satisfies the test; otherwise the first that does |
| Collections.FilterIsSubsequence | src/store/notesStore.ts:43 | filtering keeps the survivors in their original order |
| Collections.FilterCount | src/components/NotesSection.tsx:95 | a filter keeps every copy of a value it accepts and none of a value it rejects |
| Collections.FilterPrefixCut | src/components/StudyPlannerSection.tsx:197-201 | the first k survivors of a filter are the survivors of some leading part of the input, all of it when k is the number of survivors |
| Numbers.JsRem | src/components/PYQSection.tsx:286 | JavaScript's `%`: the dividend less a whole multiple of the divisor, smaller than the divisor in size, with the dividend's sign |
| Numbers.JsRemUnique | src/components/PYQSection.tsx:286 | no other value has those properties, so they pin down JavaScript's `%` |
| Numbers.JsRemNonNegative | src/components/PYQSection.tsx:286 | on a non-negative dividend JavaScript's `%` agrees with Dafny's |

## Left out

- Storage holds values, not JSON text: `JSON.stringify` and `JSON.parse` are not modelled. A stored item is classified as missing, unparseable, a non-array, or an array of notes.
- The notes store is a module of its own; no section reads or writes it, so nothing connects it to the pages.
- Lower-casing covers ASCII letters only; Unicode case mapping is not modelled.
- `Math.random` is left out, together with everything it decides:
  - the flashcard shuffle;
  - the `confidence` field of an exam result;
  - the topic of an AI-generated note (`generateAINote`);
  - the reply delay of the chat.
- Floating-point values are left out: the exam percentage and its confetti, flashcard accuracy percentages, the XP bar percentage, challenge progress percentages, and the planner's weekly hours.
- Clocks and time are not modelled:
  - ids and dates come from `Date.now()` and `new Date()`, and are passed in as parameters;
  - an invalid exam date is not modelled;
  - `todaySessions` compares calendar days and is left out.
- These browser features and libraries are left out: speech recognition, toasts, the clipboard, gsap animation, the force-graph library and its layout, and the rich-text editor.
- Ending the exam on a tab switch (`PYQSection.tsx:123-137`) is not modelled. Its listener is registered when exam mode starts and keeps the `endExam` of that render, so it scores the answers as they were when the exam started (none), not those given since.
- Chat messages carry no timestamps or attachments. The assistant's texts are a `ReplyTexts` value, and `SourceTexts` holds the app's own strings.
- Achievements, the leaderboard, `rank` and `streak` on the gamified page are static data. `userLevel` is never changed by the page.
- The exam's recorded answers use string keys only; JavaScript prototype keys of `selectedAnswers` are not modelled.
- Counters (streaks, points, XP, attempts) are unbounded naturals; JavaScript's 2^53 precision limit is not modelled.
- Flashcards.FlashcardDeck.NextCard: requires the current card to exist, because the study view renders its buttons only then.
  - The same holds for `PrevCard`, `FlipCard` and `MarkAnswer`.
  - With an empty filtered list the source would compute `NaN` indices; that case is not modelled.
- KnowledgeGraph.GraphEditor.Save: requires the fresh id to be unused, because `Date.now()` is later than every earlier id. Its preconditions on the sheet being open, and those of the other handlers on it being closed, reflect that the sheet is modal.
- Exam.ExamSession.SetTimeLimit: takes whole minutes only. `Number(...)` of the input can be fractional ("1.1" gives 66.00000000000001 seconds); then the countdown steps past zero without ever equalling it and the exam never ends on time. The model's "reaching zero ends the exam" holds for whole minutes only.
- KnowledgeGraph.LinkKeepsSimple: compares link endpoints as ids, as the handlers are written (`SolarSystemSection.tsx:68` and `:107`). The graph library replaces the numeric `source` and `target` of the links it is given with node objects, after which those comparisons compare objects with numbers; that rewrite is not modelled.
- KnowledgeGraph.GraphEditor.Save: the in-place edit of a node (`SolarSystemSection.tsx:92-93`) also changes the module-level initial notes the node list starts from; that aliasing is not modelled, the edit is a new node value in the list.
- DoubtsChat.DoubtsChat.Send: requires the assistant not to be typing, because the input and the Send button are disabled while it types.
- NotesStore.SharedNotesStore.SaveNotes: subscribers are ids with no behaviour of their own, and a delivery is an entry in a log. So the model always reaches every subscriber, in order. The source (`notesStore.ts:30-33`, `:49-51`) can fail to do so in three ways, none of them modelled:
  - a callback that throws stops the `forEach`, so later subscribers are not called, and the exception escapes `saveNotes`, `upsertNote` and `removeNote` after storage was written;
  - a callback that calls its own unsubscribe splices the array during the `forEach`, so the next subscriber is skipped;
  - `localStorage.setItem` can throw (storage full), and then nobody is notified; `saveNotes` does not catch it, unlike `getNotes`.
- StudyPlanner.StudyTimer.StartSession: requires the timer to be stopped, because the Start buttons are disabled while it runs.
