/**
 * Editing the ordered question list of a custom form (registration or
 * feedback form of a tournament). Questions carry a position; new
 * questions go last, removing a question closes the gap, and moving a
 * question up or down swaps it with its neighbour. Questions bound to a
 * required alias can be neither edited nor removed.
 */
module CustomForms {
  import opened Wrappers

  datatype Question = Question(id: nat, question: string, comment: string, position: int, required: bool, alias: Option<string>)

  datatype Status = JsonOk | JsonBad

  /** The messages the editing requests answer with. */
  datatype Reply =
    | EmptyQuestion | QuestionNotFound | RequiredNotEditable | QuestionSaved(questionId: nat) | QuestionAdded(questionId: nat)
    | RequiredNotRemovable | QuestionRemoved
    | CannotReorder | ChangesSaved
    | FormNotFound | UnknownAction

  /** The status a reply is sent with. */
  function StatusOf(reply: Reply): Status {
    if reply.QuestionSaved? || reply.QuestionAdded? || reply == QuestionRemoved || reply == ChangesSaved then JsonOk else JsonBad
  }

  /** The reply and the question list after a request. */
  datatype Response = Response(reply: Reply, questions: seq<Question>)

  /** The index of the first question with this id. */
  function IndexOf(qs: seq<Question>, id: nat): (r: Option<nat>)
    ensures r.Some? ==> r.value < |qs| && qs[r.value].id == id && forall k :: 0 <= k < r.value ==> qs[k].id != id
    ensures r.None? ==> forall k :: 0 <= k < |qs| ==> qs[k].id != id
  {
    if qs == [] then None
    else if qs[0].id == id then Some(0)
    else match IndexOf(qs[1..], id)
      case None => None
      case Some(k) => Some(k + 1)
  }

  function Ids(qs: seq<Question>): seq<nat> {
    seq(|qs|, k requires 0 <= k < |qs| => qs[k].id)
  }

  function Positions(qs: seq<Question>): seq<int> {
    seq(|qs|, k requires 0 <= k < |qs| => qs[k].position)
  }

  /** Lookups by id only look at ids. */
  lemma IndexOfDependsOnIds(qs: seq<Question>, qs': seq<Question>, id: nat)
    requires Ids(qs) == Ids(qs')
    ensures IndexOf(qs, id) == IndexOf(qs', id)
  {
    var r, r' := IndexOf(qs, id), IndexOf(qs', id);
    assert |qs| == |Ids(qs)| == |qs'|;
    assert forall k :: 0 <= k < |qs| ==> qs[k].id == Ids(qs)[k] == qs'[k].id;
    if r.Some? && r'.Some? {
      assert !(r.value < r'.value) && !(r'.value < r.value);
    }
  }

  /** The largest position. */
  function MaxPosition(qs: seq<Question>): (m: int)
    requires qs != []
    ensures forall k :: 0 <= k < |qs| ==> qs[k].position <= m
    ensures exists k :: 0 <= k < |qs| && qs[k].position == m
  {
    if |qs| == 1 then qs[0].position
    else
      var rest := MaxPosition(qs[1..]);
      if qs[0].position >= rest then qs[0].position else rest
  }

  /** The position a new question gets: one past the last, or 1 in an empty form. */
  function NextPosition(qs: seq<Question>): (p: int)
    ensures forall k :: 0 <= k < |qs| ==> qs[k].position < p
    ensures qs == [] ==> p == 1
    ensures qs != [] ==> exists k :: 0 <= k < |qs| && qs[k].position == p - 1
  {
    if qs != [] then MaxPosition(qs) + 1 else 1
  }

  /** The positions are 1 … n, each used once. */
  ghost predicate PositionsValid(qs: seq<Question>) {
    && (forall k :: 0 <= k < |qs| ==> 1 <= qs[k].position <= |qs|)
    && (forall j, k :: 0 <= j < k < |qs| ==> qs[j].position != qs[k].position)
  }

  /** Ids are distinct. */
  ghost predicate IdsDistinct(qs: seq<Question>) {
    forall j, k :: 0 <= j < k < |qs| ==> qs[j].id != qs[k].id
  }

  predicate IsRequiredAlias(q: Question, requiredAliases: set<string>) {
    q.alias.Some? && q.alias.value in requiredAliases
  }

  // ---------------------------------------------------------------------
  // Edit or add

  /**
   * `_form_edit_field`: an empty text is refused; id 0 adds a question
   * (with id `newId`) at the next position; any other id edits that
   * question unless it is missing or bound to a required alias.
   */
  function EditResponse(qs: seq<Question>, requiredAliases: set<string>, newId: nat,
                        fieldId: nat, question: string, comment: string, isRequired: bool): (r: Response)
    ensures |r.questions| >= |qs|
    ensures r.reply.QuestionSaved? || r.reply.QuestionAdded? || r.questions == qs
    ensures StatusOf(r.reply) == JsonOk <==>
      question != "" && (fieldId == 0 || (IndexOf(qs, fieldId).Some? && !IsRequiredAlias(qs[IndexOf(qs, fieldId).value], requiredAliases)))
    ensures question == "" ==> r == Response(EmptyQuestion, qs)
    ensures question != "" && fieldId != 0 && IndexOf(qs, fieldId).None? ==> r == Response(QuestionNotFound, qs)
    ensures question != "" && fieldId != 0 && IndexOf(qs, fieldId).Some? ==>
      var i := IndexOf(qs, fieldId).value;
      if IsRequiredAlias(qs[i], requiredAliases) then r == Response(RequiredNotEditable, qs)
      else r == Response(QuestionSaved(fieldId), qs[i := qs[i].(question := question, comment := comment, required := isRequired)])
    ensures question != "" && fieldId == 0 ==>
      r == Response(QuestionAdded(newId), qs + [Question(newId, question, comment, NextPosition(qs), isRequired, None)])
    ensures forall k :: 0 <= k < |qs| && IsRequiredAlias(qs[k], requiredAliases) ==> r.questions[k] == qs[k]
    ensures forall k :: 0 <= k < |qs| ==> r.questions[k].position == qs[k].position && r.questions[k].id == qs[k].id
  {
    if question == "" then Response(EmptyQuestion, qs)
    else if fieldId != 0 then
      match IndexOf(qs, fieldId)
      case None => Response(QuestionNotFound, qs)
      case Some(i) =>
        if IsRequiredAlias(qs[i], requiredAliases) then Response(RequiredNotEditable, qs)
        else Response(QuestionSaved(fieldId), qs[i := qs[i].(question := question, comment := comment, required := isRequired)])
    else
      Response(QuestionAdded(newId), qs + [Question(newId, question, comment, NextPosition(qs), isRequired, None)])
  }

  /** Adding keeps the positions 1 … n + 1 and puts the new question after every other. */
  lemma AddKeepsPositionsValid(qs: seq<Question>, q: Question)
    requires PositionsValid(qs)
    requires q.position == NextPosition(qs)
    ensures PositionsValid(qs + [q])
    ensures forall k :: 0 <= k < |qs| ==> qs[k].position < q.position
  {
    if qs != [] {
      var k :| 0 <= k < |qs| && qs[k].position == q.position - 1;
    }
  }

  // ---------------------------------------------------------------------
  // Remove

  /** A question after the question at `removed` was deleted: later ones move up one. */
  function Shift(q: Question, removed: int): Question {
    if q.position > removed then q.(position := q.position - 1) else q
  }

  /** The index in the old list of entry `k` of the list without entry `i`. */
  function Orig(i: nat, k: nat): nat {
    if k < i then k else k + 1
  }

  /** The list without question `i`, every later position decremented. */
  function RemovedAt(qs: seq<Question>, i: nat): (r: seq<Question>)
    requires i < |qs|
    ensures |r| == |qs| - 1
    ensures forall k :: 0 <= k < |r| ==> r[k] == Shift(qs[Orig(i, k)], qs[i].position)
  {
    seq(|qs| - 1, k requires 0 <= k < |qs| - 1 => Shift(qs[Orig(i, k)], qs[i].position))
  }

  /**
   * `_form_remove_field`: a missing question or one bound to a required
   * alias is refused; otherwise the question is deleted and the gap closed.
   */
  function RemoveResponse(qs: seq<Question>, requiredAliases: set<string>, fieldId: nat): (r: Response)
    ensures r.reply == QuestionRemoved || r.questions == qs
    ensures r.reply == QuestionRemoved <==>
      IndexOf(qs, fieldId).Some? && !IsRequiredAlias(qs[IndexOf(qs, fieldId).value], requiredAliases)
    ensures r.reply == QuestionRemoved ==> r.questions == RemovedAt(qs, IndexOf(qs, fieldId).value)
    ensures IndexOf(qs, fieldId).None? ==> r == Response(QuestionNotFound, qs)
    ensures IndexOf(qs, fieldId).Some? && IsRequiredAlias(qs[IndexOf(qs, fieldId).value], requiredAliases) ==>
      r == Response(RequiredNotRemovable, qs)
  {
    match IndexOf(qs, fieldId)
    case None => Response(QuestionNotFound, qs)
    case Some(i) =>
      if IsRequiredAlias(qs[i], requiredAliases) then Response(RequiredNotRemovable, qs)
      else Response(QuestionRemoved, RemovedAt(qs, i))
  }

  /** A question bound to a required alias survives every removal, with its id and contents. */
  lemma RemoveKeepsRequired(qs: seq<Question>, requiredAliases: set<string>, fieldId: nat, k: nat)
    requires k < |qs| && IsRequiredAlias(qs[k], requiredAliases)
    ensures var r := RemoveResponse(qs, requiredAliases, fieldId).questions;
      exists j :: 0 <= j < |r| && r[j].(position := qs[k].position) == qs[k]
  {
    var resp := RemoveResponse(qs, requiredAliases, fieldId);
    if resp.reply == QuestionRemoved {
      var i := IndexOf(qs, fieldId).value;
      var j := if k < i then k else k - 1;
      assert Orig(i, j) == k;
      assert resp.questions[j].(position := qs[k].position) == qs[k];
    } else {
      assert resp.questions[k] == qs[k];
    }
  }

  /**
   * Removing a question keeps the positions 1 … n - 1 and keeps the
   * relative order of the remaining questions.
   */
  lemma RemoveKeepsPositionsValid(qs: seq<Question>, i: nat)
    requires PositionsValid(qs)
    requires i < |qs|
    ensures PositionsValid(RemovedAt(qs, i))
    ensures forall j, k :: 0 <= j < |qs| - 1 && 0 <= k < |qs| - 1 ==>
      (RemovedAt(qs, i)[j].position < RemovedAt(qs, i)[k].position <==> qs[Orig(i, j)].position < qs[Orig(i, k)].position)
  {
    var r := RemovedAt(qs, i);
    var removed := qs[i].position;
    forall k | 0 <= k < |r|
      ensures 1 <= r[k].position <= |r|
    {
      assert qs[Orig(i, k)].position != removed;
    }
    forall j, k | 0 <= j < |r| && 0 <= k < |r|
      ensures r[j].position < r[k].position <==> qs[Orig(i, j)].position < qs[Orig(i, k)].position
      ensures j < k ==> r[j].position != r[k].position
    {
      assert qs[Orig(i, j)].position != removed && qs[Orig(i, k)].position != removed;
      assert j < k ==> qs[Orig(i, j)].position != qs[Orig(i, k)].position;
    }
  }

  // ---------------------------------------------------------------------
  // Reorder

  /** Question `f` moves one position up (number minus one), question `p` one down. */
  function Swapped(qs: seq<Question>, f: nat, p: nat): (r: seq<Question>)
    requires f < |qs| && p < |qs|
    ensures |r| == |qs|
  {
    qs[f := qs[f].(position := qs[f].position - 1)][p := qs[p].(position := qs[p].position + 1)]
  }

  /**
   * `_swap_field(field, prev_field)` on the lookup results, given as
   * indices: refused unless both exist and `prev` is numbered immediately
   * before `field`; then `field` moves up one and `prev` down one.
   */
  function SwapAt(qs: seq<Question>, f: Option<nat>, p: Option<nat>): (r: Response)
    requires f.Some? ==> f.value < |qs|
    requires p.Some? ==> p.value < |qs|
    ensures r.reply == ChangesSaved || r.questions == qs
    ensures Ids(r.questions) == Ids(qs)
    ensures r.reply == ChangesSaved <==> f.Some? && p.Some? && qs[p.value].position + 1 == qs[f.value].position
    ensures r.reply == ChangesSaved ==> r.questions == Swapped(qs, f.value, p.value)
    ensures f.None? || p.None? ==> r == Response(QuestionNotFound, qs)
    ensures f.Some? && p.Some? && qs[p.value].position + 1 != qs[f.value].position ==> r == Response(CannotReorder, qs)
  {
    match (f, p)
    case (None, _) => Response(QuestionNotFound, qs)
    case (_, None) => Response(QuestionNotFound, qs)
    case (Some(f), Some(p)) =>
      if qs[p].position + 1 != qs[f].position then Response(CannotReorder, qs)
      else
        var r := Swapped(qs, f, p);
        assert Ids(r) == Ids(qs);
        Response(ChangesSaved, r)
  }

  /** Moving the question `fieldId` before the question `prevId`. */
  function SwapResponse(qs: seq<Question>, fieldId: nat, prevId: nat): (r: Response)
    ensures r.reply == ChangesSaved || r.questions == qs
    ensures Ids(r.questions) == Ids(qs)
    ensures r.reply == ChangesSaved <==>
      && IndexOf(qs, fieldId).Some? && IndexOf(qs, prevId).Some?
      && qs[IndexOf(qs, prevId).value].position + 1 == qs[IndexOf(qs, fieldId).value].position
    ensures r.reply == ChangesSaved ==> r.questions == Swapped(qs, IndexOf(qs, fieldId).value, IndexOf(qs, prevId).value)
    ensures IndexOf(qs, fieldId).None? || IndexOf(qs, prevId).None? ==> r == Response(QuestionNotFound, qs)
  {
    SwapAt(qs, IndexOf(qs, fieldId), IndexOf(qs, prevId))
  }

  /**
   * A swap of neighbours exchanges their two positions: nothing else
   * changes, the multiset of positions stays, and valid positions stay valid.
   */
  lemma SwapExchangesPositions(qs: seq<Question>, f: nat, p: nat)
    requires f < |qs| && p < |qs|
    requires qs[p].position + 1 == qs[f].position
    ensures var r := Swapped(qs, f, p);
      && r[f].position == qs[p].position && r[p].position == qs[f].position
      && (forall k :: 0 <= k < |qs| && k != f && k != p ==> r[k] == qs[k])
      && multiset(Positions(r)) == multiset(Positions(qs))
      && (PositionsValid(qs) ==> PositionsValid(r))
  {
    var r := Swapped(qs, f, p);
    var ps := Positions(qs);
    assert Positions(r) == ps[f := ps[p]][p := ps[f]];
    var ps1: seq<int> := ps[f := ps[p]];
    assert multiset(ps1) == multiset(ps) - multiset{ps[f]} + multiset{ps[p]};
    assert multiset(ps1[p := ps[f]]) == multiset(ps1) - multiset{ps[p]} + multiset{ps[f]};
  }

  /**
   * Moving a question up and then moving it back down (or the reverse)
   * restores the list: a successful swap of `field` with `prev` makes
   * `prev` the question right after `field`, and swapping those two again
   * undoes it.
   */
  lemma SwapRoundTrip(qs: seq<Question>, fieldId: nat, prevId: nat)
    requires SwapResponse(qs, fieldId, prevId).reply == ChangesSaved
    ensures var once := SwapResponse(qs, fieldId, prevId).questions;
      SwapResponse(once, prevId, fieldId) == Response(ChangesSaved, qs)
  {
    var f, p := IndexOf(qs, fieldId).value, IndexOf(qs, prevId).value;
    var once := SwapResponse(qs, fieldId, prevId).questions;
    IndexOfDependsOnIds(once, qs, fieldId);
    IndexOfDependsOnIds(once, qs, prevId);
    assert once == Swapped(qs, f, p);
    assert Swapped(once, p, f) == qs;
  }

  // ---------------------------------------------------------------------
  // The form and its requests

  /** A custom form and its questions, as stored. */
  class CustomForm {
    const id: nat
    const tournament: nat
    /** The aliases whose questions every form must keep as they are. */
    const requiredAliases: set<string>
    var questions: seq<Question>
    /** The primary key the next created question receives. */
    var nextId: nat

    /** Primary keys are positive, distinct and below `nextId`. */
    ghost predicate Valid()
      reads this
    {
      && nextId > 0
      && IdsDistinct(questions)
      && forall k :: 0 <= k < |questions| ==> 0 < questions[k].id < nextId
    }

    constructor (id: nat, tournament: nat, requiredAliases: set<string>)
      ensures Valid()
      ensures this.id == id && this.tournament == tournament && this.requiredAliases == requiredAliases
      ensures questions == []
    {
      this.id := id;
      this.tournament := tournament;
      this.requiredAliases := requiredAliases;
      questions := [];
      nextId := 1;
    }

    /** The question with this id, if the form has one. */
    method FindQuestion(questionId: nat) returns (i: Option<nat>)
      ensures i == IndexOf(questions, questionId)
    {
      var k := 0;
      while k < |questions|
        invariant 0 <= k <= |questions|
        invariant forall m :: 0 <= m < k ==> questions[m].id != questionId
      {
        if questions[k].id == questionId {
          return Some(k);
        }
        k := k + 1;
      }
      return None;
    }

    method EditField(fieldId: nat, question: string, comment: string, isRequired: bool) returns (status: Status, reply: Reply)
      requires Valid()
      modifies this
      ensures Valid()
      ensures Response(reply, questions) == EditResponse(old(questions), requiredAliases, old(nextId), fieldId, question, comment, isRequired)
      ensures nextId == if reply.QuestionAdded? then old(nextId) + 1 else old(nextId)
      ensures status == StatusOf(reply)
      ensures PositionsValid(old(questions)) ==> PositionsValid(questions)
    {
      if question == "" {
        return JsonBad, EmptyQuestion;
      }
      if fieldId != 0 {
        var i := FindQuestion(fieldId);
        if i.None? {
          return JsonBad, QuestionNotFound;
        }
        var q := questions[i.value];
        if IsRequiredAlias(q, requiredAliases) {
          return JsonBad, RequiredNotEditable;
        }
        UpdateQuestion(i.value, question, comment, isRequired);
        status, reply := JsonOk, QuestionSaved(q.id);
      } else {
        var created := AddQuestion(question, comment, isRequired);
        status, reply := JsonOk, QuestionAdded(created);
      }
    }

    /** Saves new texts and the required flag into question `i`. */
    method UpdateQuestion(i: nat, question: string, comment: string, isRequired: bool)
      requires Valid() && i < |questions|
      modifies this
      ensures Valid()
      ensures questions == old(questions)[i := old(questions)[i].(question := question, comment := comment, required := isRequired)]
      ensures nextId == old(nextId)
      ensures PositionsValid(old(questions)) ==> PositionsValid(questions)
    {
      questions := questions[i := questions[i].(question := question, comment := comment, required := isRequired)];
    }

    /** Creates a question at the next position and returns its id. */
    method AddQuestion(question: string, comment: string, isRequired: bool) returns (newId: nat)
      requires Valid()
      modifies this
      ensures Valid()
      ensures newId == old(nextId) && nextId == old(nextId) + 1
      ensures questions == old(questions) + [Question(newId, question, comment, NextPosition(old(questions)), isRequired, None)]
      ensures PositionsValid(old(questions)) ==> PositionsValid(questions)
    {
      var position := if |questions| > 0 then MaxPosition(questions) + 1 else 1;
      var created := Question(nextId, question, comment, position, isRequired, None);
      if PositionsValid(questions) {
        AddKeepsPositionsValid(questions, created);
      }
      questions := questions + [created];
      newId := nextId;
      nextId := nextId + 1;
    }

    method RemoveField(fieldId: nat) returns (status: Status, reply: Reply)
      requires Valid()
      modifies this
      ensures Valid()
      ensures Response(reply, questions) == RemoveResponse(old(questions), requiredAliases, fieldId)
      ensures nextId == old(nextId)
      ensures status == StatusOf(reply)
      ensures PositionsValid(old(questions)) ==> PositionsValid(questions)
    {
      var found := FindQuestion(fieldId);
      if found.None? {
        return JsonBad, QuestionNotFound;
      }
      var i := found.value;
      if IsRequiredAlias(questions[i], requiredAliases) {
        return JsonBad, RequiredNotRemovable;
      }
      // the bulk update of the later positions, then the deletion
      var removed := questions[i].position;
      var rest: seq<Question> := [];
      var k := 0;
      while k < |questions|
        invariant 0 <= k <= |questions|
        invariant |rest| == if k <= i then k else k - 1
        invariant forall m :: 0 <= m < |rest| ==> rest[m] == Shift(questions[Orig(i, m)], removed)
      {
        if k != i {
          var q := questions[k];
          rest := rest + [if q.position > removed then q.(position := q.position - 1) else q];
        }
        k := k + 1;
      }
      assert rest == RemovedAt(questions, i);
      if PositionsValid(questions) {
        RemoveKeepsPositionsValid(questions, i);
      }
      forall j, m | 0 <= j < m < |rest|
        ensures rest[j].id != rest[m].id
      {
        assert Orig(i, j) < Orig(i, m);
      }
      questions := rest;
      status, reply := JsonOk, QuestionRemoved;
    }

    /** `_swap_field` on the looked-up questions `field` and `prev`. */
    method SwapField(field: Option<nat>, prev: Option<nat>) returns (status: Status, reply: Reply)
      requires Valid()
      requires field.Some? ==> field.value < |questions|
      requires prev.Some? ==> prev.value < |questions|
      modifies this
      ensures Valid()
      ensures Response(reply, questions) == SwapAt(old(questions), field, prev)
      ensures nextId == old(nextId)
      ensures status == StatusOf(reply)
      ensures PositionsValid(old(questions)) ==> PositionsValid(questions)
    {
      if field.None? || prev.None? {
        return JsonBad, QuestionNotFound;
      }
      var f, p := field.value, prev.value;
      if questions[p].position + 1 != questions[f].position {
        return JsonBad, CannotReorder;
      }
      SwapExchangesPositions(questions, f, p);
      questions := questions[f := questions[f].(position := questions[f].position - 1)];
      questions := questions[p := questions[p].(position := questions[p].position + 1)];
      status, reply := JsonOk, ChangesSaved;
    }

    /** `_form_up_field`: moves `fieldId` before `prevId`. */
    method UpField(fieldId: nat, prevId: nat) returns (status: Status, reply: Reply)
      requires Valid()
      modifies this
      ensures Valid()
      ensures Response(reply, questions) == SwapResponse(old(questions), fieldId, prevId)
      ensures nextId == old(nextId)
      ensures status == StatusOf(reply)
      ensures PositionsValid(old(questions)) ==> PositionsValid(questions)
    {
      var field := FindQuestion(fieldId);
      var prev := FindQuestion(prevId);
      status, reply := SwapField(field, prev);
    }

    /** `_form_down_field`: moves `fieldId` after `nextQuestionId`. */
    method DownField(fieldId: nat, nextQuestionId: nat) returns (status: Status, reply: Reply)
      requires Valid()
      modifies this
      ensures Valid()
      ensures Response(reply, questions) == SwapResponse(old(questions), nextQuestionId, fieldId)
      ensures nextId == old(nextId)
      ensures status == StatusOf(reply)
      ensures PositionsValid(old(questions)) ==> PositionsValid(questions)
    {
      var field := FindQuestion(fieldId);
      var next := FindQuestion(nextQuestionId);
      status, reply := SwapField(next, field);
    }
  }

  /** The requested action, decoded from the posted action name. */
  datatype Action = EditQuestion | RemoveQuestion | UpQuestion | DownQuestion | OtherAction

  /** The posted fields of an editing request (absent numbers are 0, absent texts ""). */
  datatype Request = Request(
    formId: nat, action: Action,
    questionId: nat, prevQuestionId: nat, nextQuestionId: nat,
    question: string, comment: string, isRequired: bool)

  /** The response the dispatcher specifies for a form of `tournament`. */
  function DispatchResponse(questions: seq<Question>, requiredAliases: set<string>, nextId: nat, req: Request): (r: Response)
    ensures req.action == OtherAction ==> r == Response(UnknownAction, questions)
    ensures StatusOf(r.reply) == JsonBad ==> r.questions == questions
    ensures req.action == RemoveQuestion ==> r.reply in {QuestionNotFound, RequiredNotRemovable, QuestionRemoved}
    ensures req.action == UpQuestion || req.action == DownQuestion ==> r.reply in {QuestionNotFound, CannotReorder, ChangesSaved}
  {
    match req.action
    case EditQuestion => EditResponse(questions, requiredAliases, nextId, req.questionId, req.question, req.comment, req.isRequired)
    case RemoveQuestion => RemoveResponse(questions, requiredAliases, req.questionId)
    case UpQuestion => SwapResponse(questions, req.questionId, req.prevQuestionId)
    case DownQuestion => SwapResponse(questions, req.nextQuestionId, req.questionId)
    case OtherAction => Response(UnknownAction, questions)
  }

  /**
   * `custom_form_edit_field`: looks the form up by id; a missing form or a
   * form of another tournament is refused, otherwise the action decides.
   */
  method CustomFormEditField(forms: map<nat, CustomForm>, tournament: nat, req: Request) returns (status: Status, reply: Reply)
    requires req.formId in forms ==> forms[req.formId].Valid()
    modifies if req.formId in forms then {forms[req.formId]} else {}
    ensures req.formId in forms ==> forms[req.formId].Valid()
    ensures status == StatusOf(reply)
    ensures req.formId !in forms || forms[req.formId].tournament != tournament ==>
      reply == FormNotFound && unchanged(forms.Values)
    ensures req.formId in forms && forms[req.formId].tournament == tournament ==>
      var form := forms[req.formId];
      Response(reply, form.questions) == DispatchResponse(old(form.questions), form.requiredAliases, old(form.nextId), req)
  {
    if req.formId !in forms || forms[req.formId].tournament != tournament {
      return JsonBad, FormNotFound;
    }
    var form := forms[req.formId];
    match req.action
    case EditQuestion =>
      status, reply := form.EditField(req.questionId, req.question, req.comment, req.isRequired);
    case RemoveQuestion =>
      status, reply := form.RemoveField(req.questionId);
    case UpQuestion =>
      status, reply := form.UpField(req.questionId, req.prevQuestionId);
    case DownQuestion =>
      status, reply := form.DownField(req.questionId, req.nextQuestionId);
    case OtherAction =>
      status, reply := JsonBad, UnknownAction;
  }
}
