/** The poll lifecycle of interactions/vote.go: building a draft poll from the
    creation modal, storing it once its message exists, casting ballots
    through the poll's selector, and deleting the poll with its message.
    "Now", the platform's message edit and the store's failures are inputs. */
module Polls {
  import opened Common
  import opened Text
  import opened Store

  const MaxOptions: nat := 25
  const MaxLabel: nat := 100

  // ---------------------------------------------------------------------
  // Option parsing

  /** An option's label: the line itself, or its first 100 bytes. */
  function Truncate(line: string): (shown: string)
    ensures shown <= line
    ensures |shown| == Min(|line|, MaxLabel)
  {
    if |line| > MaxLabel then line[..MaxLabel] else line
  }

  /** The key of the option on line i: "vote/" followed by i in decimal. */
  function OptionKey(i: nat): string
  {
    "vote/" + Decimal(i)
  }

  /** Different lines get different keys. */
  lemma OptionKeyInjective(i: nat, j: nat)
    requires OptionKey(i) == OptionKey(j)
    ensures i == j
  {
    assert OptionKey(i)[5..] == Decimal(i);
    assert OptionKey(j)[5..] == Decimal(j);
    DecimalInjective(i, j);
  }

  /** `options` and `order` are what the modal's option text parses to: one
      option per line for the first 25 lines (empty lines included), keyed
      "vote/<line index>", labelled with the truncated line, listed in line
      order, and no other option. */
  predicate IsParse(text: string, options: map<string, string>, order: seq<string>)
  {
    var lines := SplitLines(text);
    && |order| == Min(|lines|, MaxOptions)
    && (forall i :: 0 <= i < |order| ==>
          order[i] == OptionKey(i) && order[i] in options && options[order[i]] == Truncate(lines[i]))
    && (forall k :: k in options ==> k in order)
  }

  /** The invariant of a poll record: `order` lists each option key exactly
      once, there are at most 25 options of at most 100 bytes each, and every
      ballot names an option. */
  predicate WellFormed(v: Vote)
  {
    && |v.order| == |v.options| <= MaxOptions
    && NoDup(v.order)
    && (forall k :: k in v.options ==> k in v.order)
    && (forall k :: k in v.order ==> k in v.options)
    && (forall k :: k in v.options ==> |v.options[k]| <= MaxLabel)
    && (forall u :: u in v.votes ==> v.votes[u] in v.options)
  }

  /** The first n lines have been turned into options, and nothing else. */
  predicate ParsedUpTo(lines: seq<string>, n: nat, options: map<string, string>, order: seq<string>)
  {
    && n <= |lines| && |order| == n && |options| == n
    && (forall j :: 0 <= j < n ==>
          order[j] == OptionKey(j) && order[j] in options && options[order[j]] == Truncate(lines[j]))
    && (forall k :: k in options ==> k in order)
  }

  /** One more line: its key is new, so the option count grows by one. */
  lemma ParseStep(lines: seq<string>, n: nat, options: map<string, string>, order: seq<string>)
    requires ParsedUpTo(lines, n, options, order) && n < |lines|
    ensures ParsedUpTo(lines, n + 1, options[OptionKey(n) := Truncate(lines[n])], order + [OptionKey(n)])
  {
    var item := OptionKey(n);
    NextKeyIsFresh(lines, n, options, order);
    var options', order' := options[item := Truncate(lines[n])], order + [item];
    forall j | 0 <= j < n + 1
      ensures order'[j] == OptionKey(j) && order'[j] in options' && options'[order'[j]] == Truncate(lines[j])
    {
      if j < n {
        assert order'[j] == order[j];
      }
    }
  }

  /** The key of the next line is not yet in use. */
  lemma NextKeyIsFresh(lines: seq<string>, n: nat, options: map<string, string>, order: seq<string>)
    requires ParsedUpTo(lines, n, options, order)
    ensures OptionKey(n) !in order && OptionKey(n) !in options
  {
    forall j | 0 <= j < n
      ensures order[j] != OptionKey(n)
    {
      if order[j] == OptionKey(n) {
        OptionKeyInjective(j, n);
      }
    }
  }

  /** Keys generated from distinct indices are distinct. */
  lemma ParsedKeysDistinct(lines: seq<string>, n: nat, options: map<string, string>, order: seq<string>)
    requires ParsedUpTo(lines, n, options, order)
    ensures NoDup(order)
  {
    forall i, j | 0 <= i < j < |order|
      ensures order[i] != order[j]
    {
      if order[i] == order[j] {
        OptionKeyInjective(i, j);
      }
    }
  }

  /** The option loop of VoteModalHandler: split the text on newlines, stop
      after index 24, truncate each line and key it by its index. */
  method ParseOptions(text: string) returns (options: map<string, string>, order: seq<string>)
    ensures IsParse(text, options, order)
    ensures NoDup(order) && |options| == |order|
  {
    var lines := SplitLines(text);
    options, order := map[], [];
    var i := 0;
    while i < |lines|
      invariant i <= MaxOptions
      invariant ParsedUpTo(lines, i, options, order)
    {
      if i > 24 {
        break;
      }
      var opt := lines[i];
      if |opt| > 100 {
        opt := opt[..100];
      }
      var item := OptionKey(i);
      ParseStep(lines, i, options, order);
      options := options[item := opt];
      order := order + [item];
      i := i + 1;
    }
    ParsedKeysDistinct(lines, i, options, order);
  }

  /** The parse of a text is unique: IsParse specifies a function. */
  lemma ParseIsUnique(text: string, options1: map<string, string>, order1: seq<string>,
                      options2: map<string, string>, order2: seq<string>)
    requires IsParse(text, options1, order1) && IsParse(text, options2, order2)
    ensures options1 == options2 && order1 == order2
  {
    assert order1 == order2;
    forall k | k in options1
      ensures k in options2 && options1[k] == options2[k]
    {
      var i :| 0 <= i < |order1| && order1[i] == k;
    }
    forall k | k in options2
      ensures k in options1
    {
      var i :| 0 <= i < |order2| && order2[i] == k;
    }
    assert options1.Keys == options2.Keys;
  }

  /** A parsed option set with no ballots yet satisfies the poll invariant. */
  lemma ParsedDraftWellFormed(text: string, v: Vote)
    requires IsParse(text, v.options, v.order) && NoDup(v.order) && |v.options| == |v.order|
    requires v.votes == map[]
    ensures WellFormed(v)
  {
    forall k | k in v.options
      ensures k in v.order && |v.options[k]| <= MaxLabel
    {
      var i :| 0 <= i < |v.order| && v.order[i] == k;
    }
  }

  // ---------------------------------------------------------------------
  // Building the draft from the modal

  /** One text field of the submitted modal: its custom id and its value. */
  datatype Field = Field(key: string, value: string)

  /** Why a submitted modal was rejected. */
  datatype ModalFailure = DuplicateQuestion | BadLength | UnknownField
  {
    /** The ephemeral reply to the rejected modal. */
    function Reply(): string
    {
      match this
      case DuplicateQuestion => "There was a problem processing your vote configuration. It has been logged."
      case BadLength => "There was an error processing your vote configuration. It has been logged."
      case UnknownField => "Something strange happened while processing your vote configuration. It has been logged."
    }
  }

  /** Either a rejection reply, or a draft poll (not yet stored) together
      with the store-on-creation callback, which is StoreCreatedPoll. */
  datatype ModalResult = Rejected(failure: ModalFailure) | Draft(vote: Vote)

  /** strings.HasPrefix(key, "desc/"). */
  predicate IsDesc(key: string)
  {
    |key| >= 5 && key[0] == 'd' && key[1] == 'e' && key[2] == 's' && key[3] == 'c' && key[4] == '/'
  }

  predicate IsKnown(key: string)
  {
    IsDesc(key) || key == "options"
  }

  function DescSuffix(key: string): string
    requires IsDesc(key)
  {
    key[5..]
  }

  predicate HasUnknownField(fields: seq<Field>)
  {
    exists i :: 0 <= i < |fields| && !IsKnown(fields[i].key)
  }

  predicate HasBadLength(fields: seq<Field>, seconds: string -> Option<int>)
  {
    exists i :: 0 <= i < |fields| && IsDesc(fields[i].key) && seconds(DescSuffix(fields[i].key)).None?
  }

  /** A "desc/" field with a non-empty question is followed by another one. */
  predicate HasSecondQuestion(fields: seq<Field>)
  {
    exists i, j :: 0 <= i < j < |fields| && IsDesc(fields[i].key) && IsDesc(fields[j].key) && fields[i].value != ""
  }

  /** What the draft built from an accepted modal holds: a fresh, unstored,
      ballot-free poll that satisfies the poll invariant; its options are the
      parse of the "options" field (none without one); its question and end
      time come from the last "desc/" field (empty and 0 without one). */
  predicate DraftMatches(fields: seq<Field>, guild: GuildId, now: int, seconds: string -> Option<int>, v: Vote)
  {
    FreshDraft(guild, now, v) && OptionsMatch(fields, v) && QuestionMatches(fields, now, seconds, v)
  }

  /** Started now, in the guild, with no message, channel or ballot yet, and
      well-formed. */
  predicate FreshDraft(guild: GuildId, now: int, v: Vote)
  {
    && v.startTime == now && v.guild == guild && v.message == 0 && v.channel == 0
    && v.votes == map[] && WellFormed(v)
  }

  /** The options are the parse of the "options" field, or none without one. */
  predicate OptionsMatch(fields: seq<Field>, v: Vote)
  {
    && (forall i :: 0 <= i < |fields| && fields[i].key == "options" ==> IsParse(fields[i].value, v.options, v.order))
    && ((forall i :: 0 <= i < |fields| ==> fields[i].key != "options") ==> v.options == map[] && v.order == [])
  }

  /** The question and the end time come from the last "desc/" field; the
      question is empty and the end time 0 without one. */
  predicate QuestionMatches(fields: seq<Field>, now: int, seconds: string -> Option<int>, v: Vote)
  {
    && (forall i :: 0 <= i < |fields| && IsDesc(fields[i].key) && (forall j :: i < j < |fields| ==> !IsDesc(fields[j].key)) ==>
          v.question == fields[i].value && seconds(DescSuffix(fields[i].key)) == Some(v.endTime - now))
    && ((forall i :: 0 <= i < |fields| ==> !IsDesc(fields[i].key)) ==> v.question == "" && v.endTime == 0)
  }


  /** The local state of VoteModalHandler's loop. */
  datatype Scan = Scan(question: string, endTime: int, options: map<string, string>, order: seq<string>)

  /** None of the first n fields was rejected for its key or its length:
      each is a "desc/" field whose length parses or the "options" field. */
  ghost predicate AcceptedUpTo(fields: seq<Field>, seconds: string -> Option<int>, n: nat)
  {
    && n <= |fields|
    && (forall j :: 0 <= j < n ==>
          IsKnown(fields[j].key) && (IsDesc(fields[j].key) ==> seconds(DescSuffix(fields[j].key)).Some?))
  }

  /** `lastDesc` is the last "desc/" field among the first n (-1 if none),
      and it gave the question and the end time; every earlier "desc/" field
      held an empty question. */
  ghost predicate QuestionFrom(fields: seq<Field>, now: int, seconds: string -> Option<int>, n: nat,
                               s: Scan, lastDesc: int)
    requires n <= |fields|
  {
    && -1 <= lastDesc < n
    && (lastDesc == -1 ==> s.question == "" && s.endTime == 0 && forall j :: 0 <= j < n ==> !IsDesc(fields[j].key))
    && (lastDesc >= 0 ==>
          && IsDesc(fields[lastDesc].key) && s.question == fields[lastDesc].value
          && seconds(DescSuffix(fields[lastDesc].key)) == Some(s.endTime - now)
          && (forall j :: 0 <= j < lastDesc && IsDesc(fields[j].key) ==> fields[j].value == "")
          && forall j :: lastDesc < j < n ==> !IsDesc(fields[j].key))
  }

  /** `optionsAt` is the "options" field among the first n (-1 if none), and
      it gave the options. */
  ghost predicate OptionsFrom(fields: seq<Field>, n: nat, s: Scan, optionsAt: int)
    requires n <= |fields|
  {
    && -1 <= optionsAt < n
    && (optionsAt == -1 ==> s.options == map[] && s.order == [] && forall j :: 0 <= j < n ==> fields[j].key != "options")
    && (optionsAt >= 0 ==>
          && fields[optionsAt].key == "options" && IsParse(fields[optionsAt].value, s.options, s.order)
          && NoDup(s.order) && |s.options| == |s.order|)
  }

  /** The invariant of VoteModalHandler's loop after the first n fields. */
  ghost predicate ScannedUpTo(fields: seq<Field>, now: int, seconds: string -> Option<int>, n: nat,
                              s: Scan, lastDesc: int, optionsAt: int)
  {
    && AcceptedUpTo(fields, seconds, n)
    && QuestionFrom(fields, now, seconds, n, s, lastDesc)
    && OptionsFrom(fields, n, s, optionsAt)
  }

  /** A "desc/" field while the question is still empty, with a length that
      parses: it sets the question and the end time. */
  lemma ScanDesc(fields: seq<Field>, now: int, seconds: string -> Option<int>, n: nat,
                 s: Scan, lastDesc: int, optionsAt: int)
    requires n < |fields| && IsDesc(fields[n].key) && seconds(DescSuffix(fields[n].key)).Some?
    ensures ScannedUpTo(fields, now, seconds, n, s, lastDesc, optionsAt) && s.question == "" ==>
              ScannedUpTo(fields, now, seconds, n + 1,
                          s.(question := fields[n].value, endTime := now + seconds(DescSuffix(fields[n].key)).value),
                          n, optionsAt)
  {
    if ScannedUpTo(fields, now, seconds, n, s, lastDesc, optionsAt) && s.question == "" {
      assert fields[n].key[0] == 'd';
    }
  }

  /** A "desc/" field while a question is already set: some earlier field
      held a non-empty question. */
  lemma ScanSecondQuestion(fields: seq<Field>, now: int, seconds: string -> Option<int>, n: nat,
                           s: Scan, lastDesc: int, optionsAt: int)
    requires n < |fields| && IsDesc(fields[n].key)
    ensures ScannedUpTo(fields, now, seconds, n, s, lastDesc, optionsAt) && s.question != "" ==>
              HasSecondQuestion(fields)
  {
    if ScannedUpTo(fields, now, seconds, n, s, lastDesc, optionsAt) && s.question != "" {
      assert IsDesc(fields[lastDesc].key) && fields[lastDesc].value != "";
    }
  }

  /** A "desc/" field whose length does not parse. */
  lemma ScanBadLength(fields: seq<Field>, seconds: string -> Option<int>, n: nat)
    requires n < |fields| && IsDesc(fields[n].key) && seconds(DescSuffix(fields[n].key)).None?
    ensures HasBadLength(fields, seconds)
  {
  }

  /** A field that is neither "desc/" nor "options". */
  lemma ScanUnknown(fields: seq<Field>, n: nat)
    requires n < |fields| && !IsKnown(fields[n].key)
    ensures HasUnknownField(fields)
  {
  }

  /** The "options" field: it sets the options. */
  lemma ScanOptions(fields: seq<Field>, now: int, seconds: string -> Option<int>, n: nat,
                    s: Scan, lastDesc: int, optionsAt: int, options: map<string, string>, order: seq<string>)
    requires n < |fields| && fields[n].key == "options"
    requires IsParse(fields[n].value, options, order) && NoDup(order) && |options| == |order|
    ensures ScannedUpTo(fields, now, seconds, n, s, lastDesc, optionsAt) ==>
              ScannedUpTo(fields, now, seconds, n + 1, s.(options := options, order := order), lastDesc, n)
  {
    assert !IsDesc(fields[n].key) by {
      assert fields[n].key[0] == 'o';
    }
  }

  /** All fields were accepted: the modal is valid and the draft is right. */
  lemma ScanFinished(fields: seq<Field>, guild: GuildId, now: int, seconds: string -> Option<int>,
                     s: Scan, lastDesc: int, optionsAt: int)
    requires forall i, j :: 0 <= i < j < |fields| ==> fields[i].key != fields[j].key
    requires ScannedUpTo(fields, now, seconds, |fields|, s, lastDesc, optionsAt)
    ensures !HasUnknownField(fields) && !HasBadLength(fields, seconds) && !HasSecondQuestion(fields)
    ensures DraftMatches(fields, guild, now, seconds, Vote(now, s.endTime, guild, 0, 0, s.question, s.options, s.order, map[]))
  {
    forall i, j | 0 <= i < j < |fields| && IsDesc(fields[i].key) && IsDesc(fields[j].key)
      ensures fields[i].value == ""
    {
      assert i < lastDesc;
    }
    ScanFinishedDraft(fields, guild, now, seconds, s, lastDesc, optionsAt);
  }

  lemma ScanFinishedDraft(fields: seq<Field>, guild: GuildId, now: int, seconds: string -> Option<int>,
                          s: Scan, lastDesc: int, optionsAt: int)
    requires forall i, j :: 0 <= i < j < |fields| ==> fields[i].key != fields[j].key
    requires QuestionFrom(fields, now, seconds, |fields|, s, lastDesc)
    requires OptionsFrom(fields, |fields|, s, optionsAt)
    ensures DraftMatches(fields, guild, now, seconds, Vote(now, s.endTime, guild, 0, 0, s.question, s.options, s.order, map[]))
  {
    var v := Vote(now, s.endTime, guild, 0, 0, s.question, s.options, s.order, map[]);
    ScanFinishedOptions(fields, s, optionsAt, v);
    ScanFinishedQuestion(fields, now, seconds, s, lastDesc, v);
  }

  /** The options of the finished scan are those of the "options" field. */
  lemma ScanFinishedOptions(fields: seq<Field>, s: Scan, optionsAt: int, v: Vote)
    requires forall i, j :: 0 <= i < j < |fields| ==> fields[i].key != fields[j].key
    requires OptionsFrom(fields, |fields|, s, optionsAt)
    requires v.options == s.options && v.order == s.order && v.votes == map[]
    ensures OptionsMatch(fields, v) && WellFormed(v)
  {
    if optionsAt >= 0 {
      ParsedDraftWellFormed(fields[optionsAt].value, v);
    }
  }

  /** The question of the finished scan is that of the last "desc/" field. */
  lemma ScanFinishedQuestion(fields: seq<Field>, now: int, seconds: string -> Option<int>, s: Scan, lastDesc: int, v: Vote)
    requires QuestionFrom(fields, now, seconds, |fields|, s, lastDesc)
    requires v.question == s.question && v.endTime == s.endTime
    ensures QuestionMatches(fields, now, seconds, v)
  {
    LastDescIsLast(fields, now, seconds, s, lastDesc);
  }


  /** At the end of the loop, the last "desc/" field of the whole modal is
      `lastDesc`. */
  lemma LastDescIsLast(fields: seq<Field>, now: int, seconds: string -> Option<int>, s: Scan, lastDesc: int)
    requires QuestionFrom(fields, now, seconds, |fields|, s, lastDesc)
    ensures forall j :: 0 <= j < |fields| && IsDesc(fields[j].key) && (forall k :: j < k < |fields| ==> !IsDesc(fields[k].key)) ==>
              j == lastDesc
  {
  }

  /** What one field of the modal does: reject the modal, or move on with
      the question, end time or options it sets. */
  datatype Step = Continue(scan: Scan) | Stop(failure: ModalFailure)

  /** The body of VoteModalHandler's loop, for field n. */
  method ScanField(fields: seq<Field>, now: int, seconds: string -> Option<int>, n: nat,
                   s: Scan, ghost lastDesc: int, ghost optionsAt: int)
    returns (step: Step, ghost lastDesc': int, ghost optionsAt': int)
    requires n < |fields|
    requires ScannedUpTo(fields, now, seconds, n, s, lastDesc, optionsAt)
    ensures step == Stop(UnknownField) ==> HasUnknownField(fields)
    ensures step == Stop(BadLength) ==> HasBadLength(fields, seconds)
    ensures step == Stop(DuplicateQuestion) ==> HasSecondQuestion(fields)
    ensures step.Stop? ==> HasUnknownField(fields) || HasBadLength(fields, seconds) || HasSecondQuestion(fields)
    ensures step.Continue? ==> ScannedUpTo(fields, now, seconds, n + 1, step.scan, lastDesc', optionsAt')
  {
    var key, value := fields[n].key, fields[n].value;
    lastDesc', optionsAt' := lastDesc, optionsAt;
    if IsDesc(key) {
      if s.question != "" {
        ScanSecondQuestion(fields, now, seconds, n, s, lastDesc, optionsAt);
        return Stop(DuplicateQuestion), lastDesc', optionsAt';
      }
      var length := seconds(DescSuffix(key));
      if length.None? {
        ScanBadLength(fields, seconds, n);
        return Stop(BadLength), lastDesc', optionsAt';
      }
      ScanDesc(fields, now, seconds, n, s, lastDesc, optionsAt);
      step := Continue(s.(question := value, endTime := now + length.value));
      lastDesc' := n;
    } else if key == "options" {
      var parsedOptions, parsedOrder := ParseOptions(value);
      ScanOptions(fields, now, seconds, n, s, lastDesc, optionsAt, parsedOptions, parsedOrder);
      step := Continue(s.(options := parsedOptions, order := parsedOrder));
      optionsAt' := n;
    } else {
      ScanUnknown(fields, n);
      step := Stop(UnknownField);
    }
  }

  /** VoteModalHandler. `fields` is the decoded modal, a map, in the order
      its iteration happened to visit it; `seconds` is the poll length the
      text after "desc/" parses to (None when it does not parse as a number).
      The handler never touches the store. */
  method VoteModalHandler(fields: seq<Field>, guild: GuildId, now: int, seconds: string -> Option<int>)
    returns (r: ModalResult)
    requires forall i, j :: 0 <= i < j < |fields| ==> fields[i].key != fields[j].key
    ensures r.Rejected? <==> HasUnknownField(fields) || HasBadLength(fields, seconds) || HasSecondQuestion(fields)
    ensures r == Rejected(UnknownField) ==> HasUnknownField(fields)
    ensures r == Rejected(BadLength) ==> HasBadLength(fields, seconds)
    ensures r == Rejected(DuplicateQuestion) ==> HasSecondQuestion(fields)
    ensures r.Draft? ==> DraftMatches(fields, guild, now, seconds, r.vote)
  {
    var scan := Scan("", 0, map[], []);
    ghost var lastDesc, optionsAt := -1, -1;
    var i := 0;
    while i < |fields|
      invariant ScannedUpTo(fields, now, seconds, i, scan, lastDesc, optionsAt)
    {
      var step;
      step, lastDesc, optionsAt := ScanField(fields, now, seconds, i, scan, lastDesc, optionsAt);
      if step.Stop? {
        return Rejected(step.failure);
      }
      scan := step.scan;
      i := i + 1;
    }
    ScanFinished(fields, guild, now, seconds, scan, lastDesc, optionsAt);
    r := Draft(Vote(now, scan.endTime, guild, 0, 0, scan.question, scan.options, scan.order, map[]));
  }

  // ---------------------------------------------------------------------
  // The selector and the ballot guards

  /** makeVoteSelector, as the set of (value, label) pairs it offers; the
      order Go's map iteration lists them in is unspecified. */
  function SelectorChoices(v: Vote): set<(string, string)>
  {
    set k | k in v.options :: (k, v.options[k])
  }

  /** On a well-formed poll the selector offers exactly the options of
      `order`, each with its label. */
  lemma SelectorOffersTheOptions(v: Vote)
    requires WellFormed(v)
    ensures forall i :: 0 <= i < |v.order| ==> (v.order[i], v.options[v.order[i]]) in SelectorChoices(v)
    ensures forall c :: c in SelectorChoices(v) ==> c.0 in v.order && v.options[c.0] == c.1
  {
  }

  /** A component interaction: a select menu with its chosen values, or any
      other kind of component. */
  datatype Component = Select(values: seq<string>) | OtherComponent

  datatype Verdict = Closed | NotSelect | WrongCount | NotAnOption | Accept(choice: string)

  /** The guards handleInteractionAsVote applies to a stored poll, in order. */
  function Judge(v: Vote, now: int, c: Component): (d: Verdict)
    ensures d.Closed? <==> v.endTime <= now
    ensures d.Accept? <==> now < v.endTime && c.Select? && |c.values| == 1 && c.values[0] in v.options
    ensures d.Accept? ==> d.choice == c.values[0]
  {
    if v.endTime <= now then Closed
    else if !c.Select? then NotSelect
    else if |c.values| != 1 then WrongCount
    else if c.values[0] !in v.options then NotAnOption
    else Accept(c.values[0])
  }

  /** Picking any one entry of the selector of an open poll is a valid
      ballot for that entry's option. */
  lemma SelectorChoiceIsAccepted(v: Vote, now: int, choice: (string, string))
    requires choice in SelectorChoices(v) && now < v.endTime
    ensures Judge(v, now, Select([choice.0])) == Accept(choice.0)
  {
  }

  // ---------------------------------------------------------------------
  // Ballots

  /** `vote.Votes[sender] = voted`. */
  function Cast(v: Vote, voter: UserId, choice: string): Vote
  {
    v.(votes := v.votes[voter := choice])
  }

  /** A ballot for an option keeps the poll invariant. */
  lemma CastKeepsWellFormed(v: Vote, voter: UserId, choice: string)
    requires WellFormed(v) && choice in v.options
    ensures WellFormed(Cast(v, voter, choice))
  {
  }

  /** A ballot records the voter's choice, overwriting an earlier one, and
      touches no other voter and no other field. */
  lemma CastChangesOnlyTheVoter(v: Vote, voter: UserId, choice: string)
    ensures Cast(v, voter, choice).votes.Keys == v.votes.Keys + {voter}
    ensures Cast(v, voter, choice).votes[voter] == choice
    ensures forall u :: u in v.votes && u != voter ==> Cast(v, voter, choice).votes[u] == v.votes[u]
    ensures Cast(v, voter, choice).(votes := v.votes) == v
  {
  }

  /** Last write wins: a voter's second ballot replaces the first. */
  lemma LastBallotWins(v: Vote, voter: UserId, first: string, second: string)
    ensures Cast(Cast(v, voter, first), voter, second) == Cast(v, voter, second)
  {
  }

  datatype Ballot = Ballot(voter: UserId, choice: string)

  /** A run of accepted ballots, in order. */
  function CastAll(v: Vote, ballots: seq<Ballot>): Vote
    decreases |ballots|
  {
    if ballots == [] then v else CastAll(Cast(v, ballots[0].voter, ballots[0].choice), ballots[1..])
  }

  function Voters(ballots: seq<Ballot>): set<UserId>
  {
    set i | 0 <= i < |ballots| :: ballots[i].voter
  }

  /** After a run of ballots the poll records exactly the earlier voters and
      the new ones. */
  lemma {:induction false} CastAllVoters(v: Vote, ballots: seq<Ballot>)
    ensures CastAll(v, ballots).votes.Keys == v.votes.Keys + Voters(ballots)
    decreases |ballots|
  {
    if ballots != [] {
      var b, rest := ballots[0], ballots[1..];
      CastAllVoters(Cast(v, b.voter, b.choice), rest);
      VotersSplit(ballots);
    }
  }

  lemma VotersSplit(ballots: seq<Ballot>)
    requires ballots != []
    ensures Voters(ballots) == {ballots[0].voter} + Voters(ballots[1..])
  {
  }

  /** A run of ballots changes nothing but `votes`. */
  lemma {:induction false} CastAllKeepsThePoll(v: Vote, ballots: seq<Ballot>)
    ensures CastAll(v, ballots).(votes := v.votes) == v
    decreases |ballots|
  {
    if ballots != [] {
      CastAllKeepsThePoll(Cast(v, ballots[0].voter, ballots[0].choice), ballots[1..]);
    }
  }

  /** A run of ballots for existing options keeps the poll invariant. */
  lemma {:induction false} CastAllKeepsWellFormed(v: Vote, ballots: seq<Ballot>)
    requires WellFormed(v)
    requires forall i :: 0 <= i < |ballots| ==> ballots[i].choice in v.options
    ensures WellFormed(CastAll(v, ballots))
    decreases |ballots|
  {
    if ballots != [] {
      var b := ballots[0];
      var next := Cast(v, b.voter, b.choice);
      CastKeepsWellFormed(v, b.voter, b.choice);
      forall i | 0 <= i < |ballots| - 1 ensures ballots[1..][i].choice in next.options {
        assert ballots[1..][i] == ballots[i + 1];
      }
      CastAllKeepsWellFormed(next, ballots[1..]);
    }
  }

  /** Each voter's recorded choice is their latest ballot. */
  lemma {:induction false} CastAllLatestWins(v: Vote, ballots: seq<Ballot>, i: nat)
    requires i < |ballots|
    requires forall j :: i < j < |ballots| ==> ballots[j].voter != ballots[i].voter
    ensures ballots[i].voter in CastAll(v, ballots).votes
    ensures CastAll(v, ballots).votes[ballots[i].voter] == ballots[i].choice
    decreases |ballots|
  {
    var b, rest := ballots[0], ballots[1..];
    var next := Cast(v, b.voter, b.choice);
    if i == 0 {
      CastAllKeepsUntouched(next, rest, b.voter);
    } else {
      assert rest[i - 1] == ballots[i];
      CastAllLatestWins(next, rest, i - 1);
    }
  }

  /** Voters who cast no ballot in the run keep what they had. */
  lemma {:induction false} CastAllKeepsUntouched(v: Vote, ballots: seq<Ballot>, u: UserId)
    requires forall j :: 0 <= j < |ballots| ==> ballots[j].voter != u
    ensures (u in CastAll(v, ballots).votes) == (u in v.votes)
    ensures u in v.votes ==> CastAll(v, ballots).votes[u] == v.votes[u]
    decreases |ballots|
  {
    if ballots != [] {
      CastAllKeepsUntouched(Cast(v, ballots[0].voter, ballots[0].choice), ballots[1..], u);
    }
  }

  /** N ballots from N distinct new voters add exactly N ballots; re-votes
      never inflate the count. */
  lemma {:induction false} DistinctVotersAllCount(v: Vote, ballots: seq<Ballot>)
    requires forall i, j :: 0 <= i < j < |ballots| ==> ballots[i].voter != ballots[j].voter
    requires forall i :: 0 <= i < |ballots| ==> ballots[i].voter !in v.votes
    ensures |CastAll(v, ballots).votes| == |v.votes| + |ballots|
    decreases |ballots|
  {
    if ballots != [] {
      var b, rest := ballots[0], ballots[1..];
      var next := Cast(v, b.voter, b.choice);
      assert b.voter !in v.votes;
      assert |next.votes| == |v.votes| + 1;
      forall i | 0 <= i < |rest| ensures rest[i].voter !in next.votes {
        assert rest[i] == ballots[i + 1];
      }
      DistinctVotersAllCount(next, rest);
    }
  }

  // ---------------------------------------------------------------------
  // Handlers that touch the store

  /** Every stored poll is well-formed and sits under its own guild and
      message id. */
  predicate PollsWellFormed(kvs: KeyValueStore)
    reads kvs
  {
    forall k :: k in kvs.entries && kvs.entries[k].Poll? ==>
      WellFormed(kvs.entries[k].vote) && k == VoteKey(kvs.entries[k].vote.guild, kvs.entries[k].vote.message)
  }

  /** The callback of VoteModalHandler: once the platform has created the
      poll's message, fill in its message and channel ids and store the
      vote under them. This is the only place a new poll is written. */
  method StoreCreatedPoll(kvs: KeyValueStore, draft: Vote, message: MessageId, channel: ChannelId)
    returns (stored: bool)
    modifies kvs
    ensures stored == old(kvs.writable)
    ensures kvs.entries == if stored
                           then old(kvs.entries)[VoteKey(draft.guild, message) := Poll(draft.(message := message, channel := channel))]
                           else old(kvs.entries)
    ensures kvs.unreadable == old(kvs.unreadable) && kvs.writable == old(kvs.writable)
    ensures old(PollsWellFormed(kvs)) && WellFormed(draft) ==> PollsWellFormed(kvs)
  {
    var vote := draft.(message := message, channel := channel);
    stored := kvs.Set(VoteKey(vote.guild, vote.message), Poll(vote));
  }

  function Registered(optionLabel: string): string
  {
    "Your vote for...\n" + optionLabel + "\n...is registered."
  }

  const ClosedReply := "I'm sorry, that vote is closed!"
  const OddReply := "Something very odd happened."
  const EditFailedReply := "There was an error registering your vote."
  const StoreFailedReply := "There was an error storing your vote."

  /** The reply to a ballot the guards refuse. */
  function Refusal(d: Verdict): string
  {
    match d
    case Closed => ClosedReply
    case NotSelect => "Your response was not in the right format, somehow?!"
    case WrongCount => "You must select exactly one item"
    case NotAnOption => "Sorry, you can't vote for that."
    case Accept(_) => ""
  }

  /** handleInteractionAsVote: (isVote, response, failed) where `failed`
      stands for a non-nil error. `editOk` is whether the platform accepted
      the edit of the poll's message. */
  method HandleInteractionAsVote(kvs: KeyValueStore, guild: GuildId, message: MessageId, sender: UserId,
                                 c: Component, now: int, editOk: bool)
    returns (isVote: bool, response: string, failed: bool)
    modifies kvs
    ensures kvs.unreadable == old(kvs.unreadable) && kvs.writable == old(kvs.writable)
    ensures match old(kvs.VoteAt(VoteKey(guild, message)))
      case Failed => isVote && response == OddReply && failed && kvs.entries == old(kvs.entries)
      case Absent => !isVote && response == "" && !failed && kvs.entries == old(kvs.entries)
      case Found(v) =>
        var d := Judge(v, now, c);
        var stored := d.Accept? && editOk && old(kvs.writable);
        && isVote && response != ""
        && (failed <==> !d.Closed? && !stored)
        && (!d.Accept? ==> response == Refusal(d))
        && (d.Accept? && !editOk ==> response == EditFailedReply)
        && (d.Accept? && editOk && !old(kvs.writable) ==> response == StoreFailedReply)
        && (stored ==> response == Registered(v.options[d.choice]))
        && kvs.entries == if stored
                          then old(kvs.entries)[VoteKey(v.guild, v.message) := Poll(Cast(v, sender, d.choice))]
                          else old(kvs.entries)
    ensures old(PollsWellFormed(kvs)) ==> PollsWellFormed(kvs)
  {
    var fetched := kvs.VoteAt(VoteKey(guild, message));
    if fetched.Failed? {
      return true, OddReply, true;
    }
    if fetched.Absent? {
      return false, "", false;
    }
    var vote := fetched.value;
    if vote.endTime <= now {
      return true, ClosedReply, false;
    }
    if !c.Select? {
      return true, Refusal(NotSelect), true;
    }
    if |c.values| != 1 {
      return true, Refusal(WrongCount), true;
    }
    var voted := c.values[0];
    if voted !in vote.options {
      return true, Refusal(NotAnOption), true;
    }
    var optionLabel := vote.options[voted];
    ghost var before := vote;
    vote := Cast(vote, sender, voted);
    if !editOk {
      return true, EditFailedReply, true;
    }
    if PollsWellFormed(kvs) {
      CastKeepsWellFormed(before, sender, voted);
    }
    var ok := kvs.Set(VoteKey(vote.guild, vote.message), Poll(vote));
    if !ok {
      return true, StoreFailedReply, true;
    }
    return true, Registered(optionLabel), false;
  }

  const SomethingWentWrong := "Something went wrong. It was logged, so hopefully it'll get fixed."
  const PollNotFound := "I'm sorry, but I can't find the poll you are trying to vote on?!"

  /** ComponentVote: the reply to a component interaction. A message without
      a poll gets the not-found reply and nothing is written; an error of any
      kind gets the generic reply. */
  method ComponentVote(kvs: KeyValueStore, guild: GuildId, message: MessageId, sender: UserId,
                       c: Component, now: int, editOk: bool)
    returns (reply: string)
    modifies kvs
    ensures kvs.unreadable == old(kvs.unreadable) && kvs.writable == old(kvs.writable)
    ensures match old(kvs.VoteAt(VoteKey(guild, message)))
      case Failed => reply == SomethingWentWrong && kvs.entries == old(kvs.entries)
      case Absent => reply == PollNotFound && kvs.entries == old(kvs.entries)
      case Found(v) =>
        var d := Judge(v, now, c);
        var stored := d.Accept? && editOk && old(kvs.writable);
        && (d.Closed? ==> reply == ClosedReply && kvs.entries == old(kvs.entries))
        && (stored ==> reply == Registered(v.options[d.choice]))
        && (!d.Closed? && !stored ==> reply == SomethingWentWrong)
        && kvs.entries == if stored
                          then old(kvs.entries)[VoteKey(v.guild, v.message) := Poll(Cast(v, sender, d.choice))]
                          else old(kvs.entries)
    ensures old(PollsWellFormed(kvs)) ==> PollsWellFormed(kvs)
  {
    var isVote, response, failed := HandleInteractionAsVote(kvs, guild, message, sender, c, now, editOk);
    if failed {
      return SomethingWentWrong;
    }
    if isVote && response != "" {
      return response;
    }
    return PollNotFound;
  }

  /** DeleteVote: when a guild message is deleted, remove the poll stored
      under it, if any. A failed delete is only logged. */
  method DeleteVote(kvs: KeyValueStore, guild: GuildId, message: MessageId)
    modifies kvs
    ensures kvs.entries == if guild == 0 || !old(kvs.writable) then old(kvs.entries)
                           else old(kvs.entries) - {VoteKey(guild, message)}
    ensures kvs.unreadable == old(kvs.unreadable) && kvs.writable == old(kvs.writable)
    ensures old(PollsWellFormed(kvs)) ==> PollsWellFormed(kvs)
  {
    if guild == 0 {
      return;
    }
    var ok := kvs.Delete(VoteKey(guild, message));
  }
}
