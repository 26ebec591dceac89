/** The form of `AITestGenerator.js` that configures an AI-generated test: the number fields, the
    difficulty distribution, topic and chapter selection, the resets when the standard or subject
    changes, and the checks `generateTest` makes before sending the request. */
module AITestGenerator {
  import opened Common
  import opened Lists

  /** A topic loaded for a selected chapter. */
  datatype Topic = Topic(id: string, chapterId: string)

  datatype Level = Easy | Medium | Hard

  const MissingFields := "Please fill in all required fields and select at least one topic."
  const BadDistribution := "Difficulty distribution must total 100%"
  const GenerationFailed := "Failed to generate test. Please try again."
  const Generated := "Test generated successfully!"

  /** `parseInt(value) || d`: `parsed` is `None` when `parseInt` gives `NaN`; `0` is falsy too. */
  function ParsedOr(parsed: Option<int>, d: int): (v: int)
    ensures parsed.Some? && parsed.value != 0 ==> v == parsed.value
    ensures parsed.None? || parsed.value == 0 ==> v == d
  {
    if parsed.Some? && parsed.value != 0 then parsed.value else d
  }

  /** `Math.max(0, Math.min(100, v))`: within 0..100, and `v` itself when it already is. */
  function Clamp(v: int): (r: int)
    ensures 0 <= r <= 100
    ensures 0 <= v <= 100 ==> r == v
    ensures v < 0 ==> r == 0
    ensures v > 100 ==> r == 100
  {
    if v < 0 then 0 else if v > 100 then 100 else v
  }

  function OtherThan(topicId: string): string -> bool
  {
    (id: string) => id != topicId
  }

  /** `handleTopicSelect`: selecting appends the id; deselecting removes every occurrence of it and
      keeps the other ids in order. */
  function ToggleTopic(selected: seq<string>, topicId: string, isSelected: bool): (r: seq<string>)
    ensures isSelected ==> r == selected + [topicId]
    ensures !isSelected ==> topicId !in r && (forall id :: id in r <==> id in selected && id != topicId)
    ensures !isSelected ==> r == Filter(selected, OtherThan(topicId))
  {
    if isSelected then selected + [topicId] else Filter(selected, OtherThan(topicId))
  }

  function OutsideChapter(chapterId: string): Topic -> bool
  {
    (t: Topic) => t.chapterId != chapterId
  }

  predicate InChapter(topics: seq<Topic>, topicId: string, chapterId: string)
  {
    exists i :: 0 <= i < |topics| && topics[i].id == topicId && topics[i].chapterId == chapterId
  }

  /** Keeps the selected ids that are not a topic of `chapterId` in `topics`. */
  function NotFromChapter(topics: seq<Topic>, chapterId: string): string -> bool
  {
    (id: string) => !InChapter(topics, id, chapterId)
  }

  /** The topics a chapter's fetched topic ids become, tagged with the chapter. */
  function Tagged(ids: seq<string>, chapterId: string): (ts: seq<Topic>)
    ensures |ts| == |ids|
    ensures forall i :: 0 <= i < |ids| ==> ts[i] == Topic(ids[i], chapterId)
  {
    seq(|ids|, i requires 0 <= i < |ids| => Topic(ids[i], chapterId))
  }

  /** `handleChapterSelect` with `isSelected` false: the chapter's topics leave the topic list,
      and every selected id that was one of them leaves the selection; nothing else changes. */
  function DeselectChapter(topics: seq<Topic>, selected: seq<string>, chapterId: string): (r: (seq<Topic>, seq<string>))
    ensures forall t :: t in r.0 <==> t in topics && t.chapterId != chapterId
    ensures forall id :: id in r.1 <==> id in selected && !InChapter(topics, id, chapterId)
    ensures forall id :: id in r.1 ==> !InChapter(r.0, id, chapterId)
  {
    var ts := Filter(topics, OutsideChapter(chapterId));
    var sel := Filter(selected, NotFromChapter(topics, chapterId));
    assert forall i :: 0 <= i < |ts| ==> ts[i].chapterId != chapterId;
    (ts, sel)
  }

  /** `generateTest`'s checks, in order: the name, standard and subject must be non-empty and a
      topic selected; then the three percentages must total exactly 100. */
  function CheckForm(testName: string, standard: string, subject: string, selectedTopics: seq<string>,
                     easy: int, medium: int, hard: int): (r: Result<(), string>)
    ensures r.Success? <==> testName != "" && standard != "" && subject != "" && |selectedTopics| > 0 && easy + medium + hard == 100
    ensures r.Failure? && (testName == "" || standard == "" || subject == "" || |selectedTopics| == 0) ==> r.error == MissingFields
    ensures r.Failure? && r.error == BadDistribution ==> easy + medium + hard != 100
  {
    if testName == "" || standard == "" || subject == "" || |selectedTopics| == 0 then Failure(MissingFields)
    else if easy + medium + hard != 100 then Failure(BadDistribution)
    else Success(())
  }

  /** The form's state. */
  class GeneratorForm {
    var testName: string
    var standard: string
    var subject: string
    var selectedTopics: seq<string>
    var questionsPerTopic: int
    var timeLimit: int
    var easy: int
    var medium: int
    var hard: int
    var topics: seq<Topic>
    var error: string
    var success: string

    /** Every percentage is within 0..100: the initial 40/40/20 is, and each change is clamped. */
    predicate Valid()
      reads this
    {
      0 <= easy <= 100 && 0 <= medium <= 100 && 0 <= hard <= 100
    }

    constructor()
      ensures Valid()
      ensures testName == "" && standard == "" && subject == "" && selectedTopics == []
      ensures questionsPerTopic == 2 && timeLimit == 60 && easy == 40 && medium == 40 && hard == 20
      ensures topics == [] && error == "" && success == ""
    {
      testName, standard, subject, selectedTopics := "", "", "", [];
      questionsPerTopic, timeLimit := 2, 60;
      easy, medium, hard := 40, 40, 20;
      topics, error, success := [], "", "";
    }

    /** The read-only "Total Questions" field. */
    function TotalQuestions(): int
      reads this
    {
      |selectedTopics| * questionsPerTopic
    }

    /** `handleDifficultyChange`: the chosen level takes the clamped value, `0` for non-numeric
        input; the other levels and fields keep theirs. */
    method HandleDifficultyChange(level: Level, parsed: Option<int>)
      requires Valid()
      modifies this
      ensures Valid()
      ensures easy == (if level == Easy then Clamp(ParsedOr(parsed, 0)) else old(easy))
      ensures medium == (if level == Medium then Clamp(ParsedOr(parsed, 0)) else old(medium))
      ensures hard == (if level == Hard then Clamp(ParsedOr(parsed, 0)) else old(hard))
      ensures testName == old(testName) && standard == old(standard) && subject == old(subject)
      ensures selectedTopics == old(selectedTopics) && topics == old(topics)
      ensures questionsPerTopic == old(questionsPerTopic) && timeLimit == old(timeLimit)
      ensures error == old(error) && success == old(success)
    {
      var v := Clamp(ParsedOr(parsed, 0));
      match level {
        case Easy => easy := v;
        case Medium => medium := v;
        case Hard => hard := v;
      }
    }

    /** `handleTopicSelect`. */
    method HandleTopicSelect(topicId: string, isSelected: bool)
      modifies this`selectedTopics
      ensures selectedTopics == ToggleTopic(old(selectedTopics), topicId, isSelected)
    {
      selectedTopics := ToggleTopic(selectedTopics, topicId, isSelected);
    }

    /** `handleChapterSelect`: selecting appends the chapter's topics, which `fetched` holds (the
        empty list when the request fails); deselecting is `DeselectChapter`. */
    method HandleChapterSelect(chapterId: string, isSelected: bool, fetched: seq<string>)
      modifies this`topics, this`selectedTopics
      ensures isSelected ==> topics == old(topics) + Tagged(fetched, chapterId) && selectedTopics == old(selectedTopics)
      ensures !isSelected ==> (topics, selectedTopics) == DeselectChapter(old(topics), old(selectedTopics), chapterId)
    {
      if isSelected {
        topics := topics + Tagged(fetched, chapterId);
      } else {
        var r := DeselectChapter(topics, selectedTopics, chapterId);
        topics, selectedTopics := r.0, r.1;
      }
    }

    /** Choosing a standard clears the subject and the selected topics. */
    method ChangeStandard(value: string)
      modifies this`standard, this`subject, this`selectedTopics
      ensures standard == value && subject == "" && selectedTopics == []
    {
      standard, subject, selectedTopics := value, "", [];
    }

    /** Choosing a subject clears the selected topics. */
    method ChangeSubject(value: string)
      modifies this`subject, this`selectedTopics
      ensures subject == value && selectedTopics == []
    {
      subject, selectedTopics := value, [];
    }

    /** The time limit field: `parseInt(value) || 60`. */
    method ChangeTimeLimit(parsed: Option<int>)
      modifies this`timeLimit
      ensures timeLimit == ParsedOr(parsed, 60)
    {
      timeLimit := ParsedOr(parsed, 60);
    }

    /** The questions-per-topic field: `parseInt(value) || 1`. */
    method ChangeQuestionsPerTopic(parsed: Option<int>)
      modifies this`questionsPerTopic
      ensures questionsPerTopic == ParsedOr(parsed, 1)
    {
      questionsPerTopic := ParsedOr(parsed, 1);
    }

    /** `generateTest`: a form failing `CheckForm` only sets the error and sends nothing; otherwise
        the error is cleared and the request sent, and `generated` says whether the server
        returned a test. */
    method GenerateTest(generated: bool) returns (sent: bool)
      modifies this`error, this`success
      ensures var check := CheckForm(old(testName), old(standard), old(subject), old(selectedTopics), old(easy), old(medium), old(hard));
        if check.Failure? then !sent && error == check.error && success == old(success)
        else if generated then sent && error == "" && success == Generated
        else sent && error == GenerationFailed && success == old(success)
    {
      var check := CheckForm(testName, standard, subject, selectedTopics, easy, medium, hard);
      if check.Failure? {
        error := check.error;
        return false;
      }
      error := "";
      sent := true;
      if generated {
        success := Generated;
      } else {
        error := GenerationFailed;
      }
    }
  }

  /** A form `generateTest` accepts asks for a distribution of three percentages in 0..100 that
      total 100, and for at least one question per positive questions-per-topic value. */
  lemma AcceptedFormIsConsistent(f: GeneratorForm)
    requires f.Valid()
    requires CheckForm(f.testName, f.standard, f.subject, f.selectedTopics, f.easy, f.medium, f.hard).Success?
    ensures f.easy + f.medium + f.hard == 100
    ensures f.questionsPerTopic >= 1 ==> f.TotalQuestions() >= 1
  {
  }
}
