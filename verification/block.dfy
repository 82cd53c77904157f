/**
  The decision rules of the `block_quizonepagepaginate` block: normalising the
  quiz it sits in, choosing the questions-per-page value handed to the page
  script, the memoised visibility check and the early returns of content
  generation. Database reads are inputs; database writes and the script call
  are returned as a list of effects in the order the block performs them.
*/
module Block {
  import opened Wrappers
  import opened Decimal
  import opened Php

  /** The page-type prefix of every quiz page. */
  const QuizPagePrefix: string := "mod-quiz-"

  /** The page-type pattern the block writes so that it shows on all quiz pages. */
  const QuizPagePattern: string := "mod-quiz-*"

  /** The AMD module whose `init` the block calls. */
  const ScriptModule: string := "block_quizonepagepaginate/module"

  /** A row of the `quiz` table; the columns the block does not touch are kept together. */
  datatype QuizRecord = QuizRecord(id: int, showblocks: int, questionsperpage: int,
                                   otherColumns: map<string, PhpValue>)

  /** What the block does to the outside world. */
  datatype Effect =
      /** `update_record('quiz', $record)`. */
    | UpdateQuiz(record: QuizRecord)
      /** `set_field('block_instances', 'pagetypepattern', $pattern, ['id' => $id])`. */
    | SetPagetypePattern(blockInstanceId: int, pattern: string)
      /** `js_call_amd($module, $function, $params)`. */
    | CallScript(amdModule: string, entry: string, params: seq<PhpValue>)

  /** The quiz row could not be found (`get_record` with MUST_EXIST throws). */
  datatype BlockError = MissingQuizRecord

  /** The block's settings object; `questionsperpage` is None when the setting is absent. */
  datatype BlockConfig = BlockConfig(questionsperpage: Option<PhpValue>)

  /** The generated block content. */
  datatype Content = Content(text: string)

  /** The object fields of a block instance that the modelled methods read or write. */
  datatype BlockState = BlockState(
    instanceId: int,
    /** `$this->visible`; None when the property does not exist. */
    visible: Option<PhpValue>,
    /** `$this->instance->visible`; None when the property does not exist. */
    instanceVisible: Option<PhpValue>,
    /** `$this->config`; None when it is null. */
    config: Option<BlockConfig>,
    /** `$this->content`; None until content has been generated. */
    content: Option<Content>)

  /**
    What the block's environment supplies: the quiz row found through the
    block's parent context (None when there is none), the answer the
    `block_positions` lookup would give, and the localised default text.
    The lookup is keyed by the parent context id and the block's own context
    id, which the query compares against the block-instance id column; a key
    with no row answers true, so `positionVisible` is left unconstrained.
  */
  datatype Site = Site(quiz: Option<QuizRecord>, positionVisible: bool, defaultText: string)

  // ---------------------------------------------------------------------------
  // autoupdate_quiz_config / autoupdate_block_config
  // ---------------------------------------------------------------------------

  /** Forces blocks to show during an attempt and all questions onto one page. */
  function NormaliseQuiz(q: QuizRecord): (r: QuizRecord)
    ensures r.showblocks >= 1
    ensures q.showblocks >= 1 ==> r.showblocks == q.showblocks
    ensures q.showblocks < 1 ==> r.showblocks == 1
    ensures r.questionsperpage == 0
    ensures r.id == q.id && r.otherColumns == q.otherColumns
  {
    var shown := if q.showblocks < 1 then q.(showblocks := 1) else q;
    if shown.questionsperpage != 0 then shown.(questionsperpage := 0) else shown
  }

  /** Normalising twice changes nothing more than normalising once. */
  lemma NormaliseQuizIdempotent(q: QuizRecord)
    ensures NormaliseQuiz(NormaliseQuiz(q)) == NormaliseQuiz(q)
  {
  }

  /**
    `autoupdate_quiz_config()`: reads the quiz row, normalises it and writes it
    back. The change flag starts out true, so the row is written even when
    nothing changed.
  */
  function AutoupdateQuizConfig(quiz: Option<QuizRecord>): (r: Result<seq<Effect>, BlockError>)
    ensures quiz.None? <==> r.Err?
    ensures quiz.Some? ==> |r.value| == 1 && r.value[0].UpdateQuiz?
    ensures quiz.Some? ==> r.value[0].record.showblocks >= 1 && r.value[0].record.questionsperpage == 0
    ensures quiz.Some? ==>
      r.value[0].record.id == quiz.value.id && r.value[0].record.otherColumns == quiz.value.otherColumns
    ensures quiz.Some? && quiz.value.showblocks >= 1 ==> r.value[0].record.showblocks == quiz.value.showblocks
    ensures quiz.Some? && quiz.value.showblocks < 1 ==> r.value[0].record.showblocks == 1
    ensures quiz.Some? && quiz.value.showblocks >= 1 && quiz.value.questionsperpage == 0 ==>
      r.value == [UpdateQuiz(quiz.value)]
  {
    match quiz
    case None => Err(MissingQuizRecord)
    case Some(record) =>
      var changed := true;
      var updated := NormaliseQuiz(record);
      Ok(if changed then [UpdateQuiz(updated)] else [])
  }

  /** `autoupdate_block_config()`: shows the block on every quiz page. */
  function AutoupdateBlockConfig(instanceId: int): seq<Effect> {
    [SetPagetypePattern(instanceId, QuizPagePattern)]
  }

  // ---------------------------------------------------------------------------
  // instance_create
  // ---------------------------------------------------------------------------

  /** The outcome of a block method together with the effects it performed before returning or throwing. */
  datatype Reply<T> = Reply(outcome: Result<T, BlockError>, effects: seq<Effect>)

  /**
    `instance_create()`: on a quiz page both autoupdates run; on any other page
    nothing happens. The method returns true whenever it returns.
  */
  function InstanceCreate(pagetype: string, instanceId: int, quiz: Option<QuizRecord>): (r: Reply<bool>)
    ensures r.outcome.Ok? ==> r.outcome.value
    ensures !StartsWith(pagetype, QuizPagePrefix) ==> r == Reply(Ok(true), [])
    ensures StartsWith(pagetype, QuizPagePrefix) && quiz.None? ==> r.outcome.Err? && r.effects == []
    ensures StartsWith(pagetype, QuizPagePrefix) && quiz.Some? ==>
      && r.outcome.Ok?
      && |r.effects| == 2
      && r.effects[0] == UpdateQuiz(NormaliseQuiz(quiz.value))
      && r.effects[1] == SetPagetypePattern(instanceId, QuizPagePattern)
    ensures r.effects != [] <==> StartsWith(pagetype, QuizPagePrefix) && quiz.Some?
  {
    if StartsWith(pagetype, QuizPagePrefix) then
      match AutoupdateQuizConfig(quiz)
      case Err(e) => Reply(Err(e), [])
      case Ok(quizEffects) => Reply(Ok(true), quizEffects + AutoupdateBlockConfig(instanceId))
    else
      Reply(Ok(true), [])
  }

  // ---------------------------------------------------------------------------
  // is_visible
  // ---------------------------------------------------------------------------

  /** The value of a property that exists, is set and holds a bool; None otherwise. */
  function BoolProperty(p: Option<PhpValue>): (r: Option<bool>)
    ensures r.Some? <==> p.Some? && p.value.Bool?
    ensures r.Some? ==> p == Some(Bool(r.value))
  {
    if p.Some? && p.value.Bool? then Some(p.value.b) else None
  }

  /**
    `is_visible()`: the block's own bool `visible` wins, then the instance's
    bool `visible`; otherwise the `block_positions` answer is used and stored
    in the block's `visible`. Nothing but `visible` ever changes.
  */
  function IsVisible(st: BlockState, lookup: bool): (r: (bool, BlockState))
    ensures r.1.(visible := st.visible) == st
    ensures BoolProperty(st.visible).Some? ==> r.0 == BoolProperty(st.visible).value && r.1 == st
    ensures BoolProperty(st.visible).None? && BoolProperty(st.instanceVisible).Some? ==>
      r.0 == BoolProperty(st.instanceVisible).value && r.1 == st
    ensures BoolProperty(st.visible).None? && BoolProperty(st.instanceVisible).None? ==>
      r.0 == lookup && BoolProperty(r.1.visible) == Some(lookup)
  {
    match BoolProperty(st.visible)
    case Some(own) => (own, st)
    case None =>
      match BoolProperty(st.instanceVisible)
      case Some(inherited) => (inherited, st)
      case None => (lookup, st.(visible := Some(Bool(lookup))))
  }

  /**
    Once `is_visible()` has answered, asking again gives the same answer and
    leaves the block as it is, whatever the lookup would now say.
  */
  lemma IsVisibleMemoised(st: BlockState, first: bool, second: bool)
    ensures IsVisible(IsVisible(st, first).1, second) == IsVisible(st, first)
  {
  }

  // ---------------------------------------------------------------------------
  // get_content
  // ---------------------------------------------------------------------------

  /**
    The questions-per-page value passed to the page script: the configured value
    when it is set and numeric, as it is (a numeric string stays a string),
    otherwise 1.
  */
  function QuestionsPerPage(config: Option<BlockConfig>): (r: PhpValue)
    ensures IsNumeric(r)
    ensures config.Some? && config.value.questionsperpage.Some? && IsNumeric(config.value.questionsperpage.value) ==>
      r == config.value.questionsperpage.value
    ensures !(config.Some? && config.value.questionsperpage.Some? && IsNumeric(config.value.questionsperpage.value)) ==>
      r == Int(1)
  {
    if config.Some? && config.value.questionsperpage.Some? && !config.value.questionsperpage.value.Null?
       && IsNumeric(config.value.questionsperpage.value)
    then config.value.questionsperpage.value
    else Int(1)
  }

  /**
    A configured questions-per-page value written as an optionally signed run
    of digits passes `is_numeric`, so it is handed to the script unchanged, as
    a string.
  */
  lemma QuestionsPerPageKeepsIntegerString(sign: string, digits: string)
    requires sign == "" || sign == "-" || sign == "+"
    requires |digits| > 0 && AllDigits(digits)
    ensures QuestionsPerPage(Some(BlockConfig(Some(Str(sign + digits))))) == Str(sign + digits)
  {
    IntegerStringIsNumeric(sign, digits);
  }

  /** What `get_content()` returns: the empty string, or the content object. */
  datatype ContentValue = EmptyString | Built(content: Content)

  /** A `get_content()` call: its outcome, the block afterwards and the effects performed. */
  datatype ContentReply = ContentReply(outcome: Result<ContentValue, BlockError>, state: BlockState,
                                       effects: seq<Effect>)

  /**
    `get_content()`: a hidden block yields the empty string; content built
    earlier is returned without running anything again; otherwise the quiz and
    block are auto-updated, the script is called with the questions-per-page
    value and the default content is stored and returned.
  */
  function GetContent(st: BlockState, site: Site): (r: ContentReply)
    ensures r.state.(visible := st.visible, content := st.content) == st
    ensures r.state.visible == IsVisible(st, site.positionVisible).1.visible
    ensures !IsVisible(st, site.positionVisible).0 ==>
      r.outcome == Ok(EmptyString) && r.effects == [] && r.state.content == st.content
    ensures IsVisible(st, site.positionVisible).0 && st.content.Some? ==>
      r.outcome == Ok(Built(st.content.value)) && r.effects == [] && r.state.content == st.content
    ensures IsVisible(st, site.positionVisible).0 && st.content.None? && site.quiz.None? ==>
      r.outcome == Err(MissingQuizRecord) && r.effects == [] && r.state.content.None?
    ensures IsVisible(st, site.positionVisible).0 && st.content.None? && site.quiz.Some? ==>
      && r.outcome == Ok(Built(Content(site.defaultText)))
      && r.state.content == Some(Content(site.defaultText))
      && r.effects == [UpdateQuiz(NormaliseQuiz(site.quiz.value)),
                       SetPagetypePattern(st.instanceId, QuizPagePattern),
                       CallScript(ScriptModule, "init", [QuestionsPerPage(st.config)])]
  {
    var (visible, shown) := IsVisible(st, site.positionVisible);
    if !visible then
      ContentReply(Ok(EmptyString), shown, [])
    else if shown.content.Some? then
      ContentReply(Ok(Built(shown.content.value)), shown, [])
    else
      match AutoupdateQuizConfig(site.quiz)
      case Err(e) => ContentReply(Err(e), shown, [])
      case Ok(quizEffects) =>
        var effects := quizEffects + AutoupdateBlockConfig(shown.instanceId);
        var qpp := QuestionsPerPage(shown.config);
        var content := Content(site.defaultText);
        ContentReply(Ok(Built(content)), shown.(content := Some(content)),
                     effects + [CallScript(ScriptModule, "init", [qpp])])
  }

  /**
    Content is generated at most once: after a call that returned content, a
    second call returns the same content and performs nothing, whatever the
    environment says the second time.
  */
  lemma GetContentOnce(st: BlockState, first: Site, second: Site)
    requires GetContent(st, first).outcome.Ok?
    requires GetContent(st, first).outcome.value.Built?
    ensures GetContent(GetContent(st, first).state, second).outcome == GetContent(st, first).outcome
    ensures GetContent(GetContent(st, first).state, second).effects == []
    ensures GetContent(GetContent(st, first).state, second).state == GetContent(st, first).state
  {
    IsVisibleMemoised(st, first.positionVisible, second.positionVisible);
  }
}
