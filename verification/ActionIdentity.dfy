/** The NUL-separated preimage of an action's identity
    (crates/rieko-findings/src/identity.rs), and exactly when two actions share it. */
module ActionIdentity {
  import opened Wrappers
  import opened Sequences
  import opened Findings
  import opened Identity

  const ACTION_TAG: Text := Ascii("rieko-action-v1")

  datatype ActionFields = ActionFields(findingId: bytes, actionType: ActionType, target: Option<bytes>)
  {
    function Target(): bytes { if target.None? then [] else target.value }
  }

  function ActionTypeName(t: ActionType): Text {
    match t
    case RebalanceChannel => Ascii("rebalance_channel")
    case UpdateFeePolicy => Ascii("update_fee_policy")
    case RestartService => Ascii("restart_service")
    case Custom => Ascii("custom")
  }

  function ActionPreimage(a: ActionFields): bytes {
    ACTION_TAG + [0] + a.findingId + [0] + ActionTypeName(a.actionType) + [0] + a.Target()
  }

  // An absent target counts as an empty one.
  predicate SameAction(a: ActionFields, b: ActionFields) {
    a.findingId == b.findingId && a.actionType == b.actionType && a.Target() == b.Target()
  }

  // The name of an action type between the two NULs that separate it from its neighbours.
  function Mark(t: ActionType): bytes { [0] + ActionTypeName(t) + [0] }

  predicate WordAt(s: bytes, i: nat, w: bytes) {
    i + |w| <= |s| && s[i..i + |w|] == w
  }

  predicate MarkAt(s: bytes, i: nat, t: ActionType) {
    WordAt(s, i, Mark(t))
  }

  /** Somewhere in the text stands a separated action type. */
  ghost predicate Hides(s: bytes) {
    exists i: nat, t :: MarkAt(s, i, t)
  }

  function ActionBody(a: ActionFields): bytes {
    a.findingId + Mark(a.actionType) + a.Target()
  }

  lemma PreimageIsBody(a: ActionFields)
    ensures ActionPreimage(a) == ACTION_TAG + [0] + ActionBody(a)
  {}

  lemma SamePreimageSameBody(a: ActionFields, b: ActionFields)
    ensures ActionPreimage(a) == ActionPreimage(b) <==> ActionBody(a) == ActionBody(b)
  {
    PreimageIsBody(a);
    PreimageIsBody(b);
    var n := |ACTION_TAG| + 1;
    assert ActionBody(a) == ActionPreimage(a)[n..] && ActionBody(b) == ActionPreimage(b)[n..];
  }

  lemma AsciiHasNoNul(s: string)
    requires forall c | c in s :: 0 < c as int < 128
    ensures 0 !in Ascii(s)
  {
    forall i | 0 <= i < |s|
      ensures Ascii(s)[i] != 0
    {
      assert s[i] in s;
    }
  }

  lemma NamesHaveNoNul(t: ActionType)
    ensures 0 !in ActionTypeName(t) && 0 < |ActionTypeName(t)|
  {
    match t
    case RebalanceChannel => AsciiHasNoNul("rebalance_channel");
    case UpdateFeePolicy => AsciiHasNoNul("update_fee_policy");
    case RestartService => AsciiHasNoNul("restart_service");
    case Custom => AsciiHasNoNul("custom");
  }

  lemma NamesDiffer(t: ActionType, t': ActionType)
    requires ActionTypeName(t) == ActionTypeName(t')
    ensures t == t'
  {
    NamesHaveNoNul(t);
    assert ActionTypeName(t)[0] == ActionTypeName(t')[0];
  }

  // A mark has its NULs at its two ends only.
  lemma MarkNuls(s: bytes, i: nat, t: ActionType, k: nat)
    requires MarkAt(s, i, t) && k < |Mark(t)|
    ensures s[i + k] == 0 <==> k == 0 || k == |Mark(t)| - 1
  {
    NamesHaveNoNul(t);
    assert s[i + k] == s[i..i + |Mark(t)|][k];
    if 0 < k < |Mark(t)| - 1 {
      assert Mark(t)[k] == ActionTypeName(t)[k - 1] && ActionTypeName(t)[k - 1] in ActionTypeName(t);
    }
  }

  lemma MarksHaveOneLength(s: bytes, i: nat, t: ActionType, t': ActionType)
    requires MarkAt(s, i, t) && MarkAt(s, i, t')
    ensures |Mark(t)| <= |Mark(t')|
  {
    NamesHaveNoNul(t');
    if |Mark(t')| < |Mark(t)| {
      MarkNuls(s, i, t, |Mark(t')| - 1);
      MarkNuls(s, i, t', |Mark(t')| - 1);
    }
  }

  lemma MarkHoldsName(t: ActionType)
    ensures Mark(t)[1..|Mark(t)| - 1] == ActionTypeName(t)
  {}

  lemma MarksDetermineTypes(s: bytes, i: nat, t: ActionType, t': ActionType)
    requires MarkAt(s, i, t) && MarkAt(s, i, t')
    ensures t == t'
  {
    MarksHaveOneLength(s, i, t, t');
    MarksHaveOneLength(s, i, t', t);
    MarkHoldsName(t);
    MarkHoldsName(t');
    NamesDiffer(t, t');
  }

  // A second mark can share no more than a NUL with the first.
  lemma MarksDoNotOverlap(s: bytes, i: nat, t: ActionType, j: nat, t': ActionType)
    requires MarkAt(s, i, t) && MarkAt(s, j, t') && i < j
    ensures i + |Mark(t)| - 1 <= j
  {
    if j < i + |Mark(t)| - 1 {
      NamesHaveNoNul(t');
      MarkNuls(s, i, t, j - i);
      MarkNuls(s, j, t', 0);
    }
  }

  lemma BodyIsMarked(a: ActionFields)
    ensures MarkAt(ActionBody(a), |a.findingId|, a.actionType)
  {}

  lemma WordInSuffix(s: bytes, start: nat, i: nat, w: bytes)
    requires start <= i <= |s|
    ensures WordAt(s[start..], i - start, w) <==> WordAt(s, i, w)
  {
    if i + |w| <= |s| {
      SliceOfDrop(s, start, i, i + |w|);
    }
  }

  lemma WordInPrefix(s: bytes, end: nat, i: nat, w: bytes)
    requires i + |w| <= end <= |s|
    ensures WordAt(s[..end], i, w) <==> WordAt(s, i, w)
  {
    SliceOfTake(s, end, i, i + |w|);
  }

  // The two neighbours of the type, each with its separator, as parts of the body.
  lemma BodyParts(a: ActionFields)
    ensures var s, p := ActionBody(a), |a.findingId|;
            && p + |Mark(a.actionType)| <= |s|
            && a.findingId + [0] == s[..p + 1]
            && [0] + a.Target() == s[p + |Mark(a.actionType)| - 1..]
  {}

  lemma SuffixHides(s: bytes, start: nat, i: nat, t: ActionType)
    requires start <= i && MarkAt(s, i, t)
    ensures Hides(s[start..])
  {
    WordInSuffix(s, start, i, Mark(t));
    assert MarkAt(s[start..], i - start, t);
  }

  lemma PrefixHides(s: bytes, end: nat, i: nat, t: ActionType)
    requires i + |Mark(t)| <= end <= |s| && MarkAt(s, i, t)
    ensures Hides(s[..end])
  {
    WordInPrefix(s, end, i, Mark(t));
    assert MarkAt(s[..end], i, t);
  }

  // Of two marks, each lies beyond what the other separates.
  lemma TwoMarks(s: bytes, p: nat, t: ActionType, q: nat, t': ActionType)
    requires MarkAt(s, p, t) && MarkAt(s, q, t') && p < q
    ensures Hides(s[p + |Mark(t)| - 1..]) && Hides(s[..q + 1])
  {
    MarksDoNotOverlap(s, p, t, q, t');
    SuffixHides(s, p + |Mark(t)| - 1, q, t');
    PrefixHides(s, q + 1, p, t);
  }

  // Where the marks of two actions with one body lie.
  lemma LaterMarkIsHidden(a: ActionFields, b: ActionFields)
    requires ActionBody(a) == ActionBody(b) && |a.findingId| < |b.findingId|
    ensures Hides([0] + a.Target()) && Hides(b.findingId + [0])
  {
    BodyIsMarked(a);
    BodyIsMarked(b);
    BodyParts(a);
    BodyParts(b);
    TwoMarks(ActionBody(a), |a.findingId|, a.actionType, |b.findingId|, b.actionType);
  }

  lemma EqualIdsEqualActions(a: ActionFields, b: ActionFields)
    requires ActionBody(a) == ActionBody(b) && |a.findingId| == |b.findingId|
    ensures SameAction(a, b)
  {
    var s, p := ActionBody(a), |a.findingId|;
    BodyIsMarked(a);
    BodyIsMarked(b);
    MarksDetermineTypes(s, p, a.actionType, b.actionType);
    assert a.findingId == s[..p] == b.findingId;
    assert a.Target() == s[p + |Mark(a.actionType)|..] == b.Target();
  }

  /** Between actions whose finding ids hide no separated type, so between any two
      with NUL-free ids, the preimage determines the action. */
  lemma ActionPreimageDeterminesTheAction(a: ActionFields, b: ActionFields)
    requires !Hides(a.findingId + [0]) && !Hides(b.findingId + [0])
    ensures ActionPreimage(a) == ActionPreimage(b) <==> SameAction(a, b)
  {
    SamePreimageSameBody(a, b);
    if ActionBody(a) == ActionBody(b) {
      if |a.findingId| < |b.findingId| {
        LaterMarkIsHidden(a, b);
      } else if |b.findingId| < |a.findingId| {
        LaterMarkIsHidden(b, a);
      } else {
        EqualIdsEqualActions(a, b);
      }
    }
  }

  lemma MarkBringsNul(id: bytes, i: nat, t: ActionType)
    ensures MarkAt(id + [0], i, t) ==> 0 in id
    ensures MarkAt([0] + id, i, t) ==> 0 in id
  {
    NamesHaveNoNul(t);
    if MarkAt(id + [0], i, t) {
      MarkNuls(id + [0], i, t, 0);
      assert id[i] == 0;
    }
    if MarkAt([0] + id, i, t) {
      MarkNuls([0] + id, i, t, |Mark(t)| - 1);
      assert id[i + |Mark(t)| - 2] == 0;
    }
  }

  lemma NulFreeHidesNothing(id: bytes)
    requires 0 !in id
    ensures !Hides(id + [0]) && !Hides([0] + id)
  {
    forall i: nat, t
      ensures !MarkAt(id + [0], i, t) && !MarkAt([0] + id, i, t)
    {
      MarkBringsNul(id, i, t);
    }
  }

  // Reading the body at another mark gives another action.
  function ReadAt(s: bytes, i: nat, t: ActionType): ActionFields
    requires MarkAt(s, i, t)
  {
    ActionFields(s[..i], t, Some(s[i + |Mark(t)|..]))
  }

  lemma SplitAtWord(s: bytes, i: nat, w: bytes)
    requires WordAt(s, i, w)
    ensures s[..i] + w + s[i + |w|..] == s
  {}

  lemma ReadAtHasTheBody(s: bytes, i: nat, t: ActionType)
    requires MarkAt(s, i, t)
    ensures ActionBody(ReadAt(s, i, t)) == s
  {
    SplitAtWord(s, i, Mark(t));
  }

  lemma MarkOfTheId(a: ActionFields, i: nat, t: ActionType)
    requires MarkAt(a.findingId + [0], i, t)
    ensures MarkAt(ActionBody(a), i, t) && i < |a.findingId|
  {
    BodyParts(a);
    NamesHaveNoNul(t);
    WordInPrefix(ActionBody(a), |a.findingId| + 1, i, Mark(t));
  }

  lemma WordOfTail(s: bytes, start: nat, tail: bytes, i: nat, w: bytes)
    requires start <= |s| && tail == s[start..] && WordAt(tail, i, w)
    ensures WordAt(s, start + i, w)
  {
    WordInSuffix(s, start, start + i, w);
  }

  lemma MarkOfTheTarget(a: ActionFields, i: nat, t: ActionType)
    requires MarkAt([0] + a.Target(), i, t)
    ensures var j := |a.findingId| + |Mark(a.actionType)| - 1 + i;
            MarkAt(ActionBody(a), j, t) && |a.findingId| < j
  {
    MarkEndsWithNul(a.actionType);
    WordAfter(a.findingId, Mark(a.actionType), a.Target(), i, Mark(t));
  }

  lemma MarkEndsWithNul(t: ActionType)
    ensures |Mark(t)| >= 2 && Mark(t)[|Mark(t)| - 1] == 0
  {}

  lemma WordAfter(f: bytes, m: bytes, x: bytes, i: nat, w: bytes)
    requires m != [] && m[|m| - 1] == 0 && WordAt([0] + x, i, w)
    ensures WordAt(f + m + x, |f| + |m| - 1 + i, w)
  {
    assert [0] + x == (f + m + x)[|f| + |m| - 1..];
    WordOfTail(f + m + x, |f| + |m| - 1, [0] + x, i, w);
  }

  lemma MarkIn(s: bytes) returns (i: nat, t: ActionType)
    requires Hides(s)
    ensures MarkAt(s, i, t)
  {
    i, t :| MarkAt(s, i, t);
  }

  lemma HiddenMark(a: ActionFields) returns (i: nat, t: ActionType)
    requires Hides(a.findingId + [0]) || Hides([0] + a.Target())
    ensures MarkAt(ActionBody(a), i, t) && i != |a.findingId|
  {
    if Hides(a.findingId + [0]) {
      i, t := MarkIn(a.findingId + [0]);
      MarkOfTheId(a, i, t);
    } else {
      i, t := MarkIn([0] + a.Target());
      MarkOfTheTarget(a, i, t);
      i := |a.findingId| + |Mark(a.actionType)| - 1 + i;
    }
  }

  /** An action shares its preimage with a different one exactly when its finding
      id or its target, next to their separators, hide a separated action type. */
  lemma ActionCollidesIff(a: ActionFields)
    ensures (exists b :: ActionPreimage(b) == ActionPreimage(a) && !SameAction(a, b)) <==>
            Hides(a.findingId + [0]) || Hides([0] + a.Target())
  {
    if Hides(a.findingId + [0]) || Hides([0] + a.Target()) {
      var i, t := HiddenMark(a);
      var b := ReadAt(ActionBody(a), i, t);
      ReadAtHasTheBody(ActionBody(a), i, t);
      SamePreimageSameBody(a, b);
      assert ActionPreimage(b) == ActionPreimage(a) && !SameAction(a, b);
    }
    if b :| ActionPreimage(b) == ActionPreimage(a) && !SameAction(a, b) {
      SamePreimageSameBody(a, b);
      if |a.findingId| < |b.findingId| {
        LaterMarkIsHidden(a, b);
      } else if |b.findingId| < |a.findingId| {
        LaterMarkIsHidden(b, a);
      } else {
        EqualIdsEqualActions(a, b);
      }
    }
  }

  lemma Regrouped(f: bytes, t: bytes, u: bytes, x: bytes)
    ensures (f + [0] + t) + ([0] + u + [0]) + x == f + ([0] + t + [0]) + (u + [0] + x)
  {}

  /** An action of any type `u` on any target `x`, whose finding id is "f NUL t" with
      `t` the name of a type, is encoded like one of type `t` for `f` on "u NUL x". */
  lemma NulInTheFindingIdCollides(f: bytes, t: ActionType, u: ActionType, x: bytes)
    ensures var a := ActionFields(f + [0] + ActionTypeName(t), u, Some(x));
            var b := ActionFields(f, t, Some(ActionTypeName(u) + [0] + x));
            ActionPreimage(a) == ActionPreimage(b) && !SameAction(a, b)
  {
    var a := ActionFields(f + [0] + ActionTypeName(t), u, Some(x));
    var b := ActionFields(f, t, Some(ActionTypeName(u) + [0] + x));
    Regrouped(f, ActionTypeName(t), ActionTypeName(u), x);
    SamePreimageSameBody(a, b);
  }
}
