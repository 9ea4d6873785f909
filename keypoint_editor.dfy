/** The keypoint editor of the exercise editor
    (widgets/exercisor/editor/keypoint_editor.py): the text filter of the
    angle inputs, the validation of a typed rule before it is handed to the
    exercise controller, the cycling through keypoints and the mapping from a
    keypoint's SMPL joint and an axis to a theta column. */
module KeypointEditor {
  import opened Common
  import opened PyStrings
  import opened ProcessThetas
  import opened ExerciseControl

  // ---------------------------------------------------------------------------
  // RotTextInput: the character filter
  // ---------------------------------------------------------------------------

  /** The characters of the class [0-9:.-]. */
  predicate AngleChar(c: char)
  {
    ('0' <= c <= '9') || c == ':' || c == '.' || c == '-'
  }

  /** The language of the pattern [^0-9:.-]: one character outside the class. */
  predicate PatternWord(w: string)
  {
    |w| == 1 && !AngleChar(w[0])
  }

  /** re.match: the pattern matches some prefix of the text, starting at its
      first character. */
  ghost predicate MatchesAtStart(s: string)
  {
    exists k :: 0 <= k <= |s| && PatternWord(s[..k])
  }

  /** The test insert_text makes: the text is dropped when its first character
      is outside the class; the empty text is never dropped. */
  predicate Rejected(s: string)
  {
    |s| > 0 && !AngleChar(s[0])
  }

  /** The filter rejects exactly the texts the anchored pattern matches. */
  lemma RejectedIffMatch(s: string)
    ensures Rejected(s) <==> MatchesAtStart(s)
  {
    if Rejected(s) {
      assert PatternWord(s[..1]);
    }
    if MatchesAtStart(s) {
      var k :| 0 <= k <= |s| && PatternWord(s[..k]);
      assert k == 1 && s[..k][0] == s[0];
    }
  }

  /** Only the first character is examined: an allowed first character lets
      any tail through, forbidden characters included. */
  lemma OnlyFirstCharacterChecked(c: char, tail: string)
    requires AngleChar(c)
    ensures !Rejected([c] + tail)
    ensures !Rejected([c] + tail + "x")
  {
  }

  /** The text input of a rule: its text and the insertion cursor. */
  class RotTextInput {
    var text: string
    var cursor: nat

    predicate Valid()
      reads this
    {
      cursor <= |text|
    }

    constructor (initial: string)
      ensures Valid() && text == initial && cursor == |initial|
    {
      text := initial;
      cursor := |initial|;
    }

    /** RotTextInput.insert_text: a rejected text is dropped, any other text
        is inserted at the cursor, which moves past it. */
    method InsertText(substring: string)
      requires Valid()
      modifies this
      ensures Valid()
      ensures Rejected(substring) ==> text == old(text) && cursor == old(cursor)
      ensures !Rejected(substring) ==>
        text == old(text)[..old(cursor)] + substring + old(text)[old(cursor)..] &&
        cursor == old(cursor) + |substring|
    {
      if Rejected(substring) {
        return;
      }
      text := text[..cursor] + substring + text[cursor..];
      cursor := cursor + |substring|;
    }
  }

  // ---------------------------------------------------------------------------
  // RotInputForm.validate_rule
  // ---------------------------------------------------------------------------

  /** The call validate_rule makes on the form's apply_rule callback. */
  datatype RuleCall = RuleCall(kind: string, axis: int, angles: Angles)

  /** What validate_rule returns, with the calls it made on apply_rule. */
  datatype Validation = Validation(accepted: bool, calls: seq<RuleCall>)

  function Rejection(): Validation
  {
    Validation(false, [])
  }

  /** RotInputForm.validate_rule. `parse` stands for Python's float() on a
      string: None where it raises ValueError. A "fixed" rule takes the whole
      text as one angle; any other type is read as a range "low:high". */
  function ValidateRule(kind: string, group: int, text: string, parse: string -> Option<real>): (r: Validation)
    ensures |r.calls| == (if r.accepted then 1 else 0)
    ensures r.accepted ==> r.calls[0].kind == kind && r.calls[0].axis == group
  {
    if kind == "fixed" then
      match parse(text)
      case None => Rejection()
      case Some(angle) => Validation(true, [RuleCall(kind, group, Scalar(angle))])
    else
      var pieces := SplitOn(text, ':');
      if |pieces| != 2 then Rejection()
      else if parse(pieces[0]).None? || parse(pieces[1]).None? then Rejection()
      else
        var lo := parse(pieces[0]).value;
        var hi := parse(pieces[1]).value;
        if lo > hi then Rejection()
        else Validation(true, [RuleCall(kind, group, Pair(lo, hi))])
  }

  /** A "fixed" rule is accepted exactly when its text parses, and the angle
      handed on is the parsed value. */
  lemma ValidateFixed(group: int, text: string, parse: string -> Option<real>)
    ensures ValidateRule("fixed", group, text, parse).accepted <==> parse(text).Some?
    ensures parse(text).Some? ==>
      ValidateRule("fixed", group, text, parse).calls == [RuleCall("fixed", group, Scalar(parse(text).value))]
  {
  }

  /** A range rule, stated on the text rather than on its split: it is
      accepted exactly when the text holds one ':' whose two sides both parse
      and the left angle is not above the right one (equal angles pass), and
      then the pair handed on is those two angles in order. */
  lemma ValidateRange(kind: string, group: int, text: string, parse: string -> Option<real>)
    requires kind != "fixed"
    ensures var r := ValidateRule(kind, group, text, parse);
      r.accepted <==>
        (IndexOf(text, ':').Some? &&
         var k := IndexOf(text, ':').value;
         ':' !in text[k + 1..] &&
         parse(text[..k]).Some? && parse(text[k + 1..]).Some? &&
         parse(text[..k]).value <= parse(text[k + 1..]).value)
    ensures var r := ValidateRule(kind, group, text, parse);
      r.accepted ==>
        var k := IndexOf(text, ':').value;
        r.calls == [RuleCall(kind, group, Pair(parse(text[..k]).value, parse(text[k + 1..]).value))]
  {
    RangePieces(text);
  }

  /** `text.split(':')` has two pieces exactly when the text holds one ':',
      and they are then the text before and after it. */
  lemma RangePieces(text: string)
    ensures |SplitOn(text, ':')| == 2 <==>
      IndexOf(text, ':').Some? && ':' !in text[IndexOf(text, ':').value + 1..]
    ensures |SplitOn(text, ':')| == 2 ==>
      var k := IndexOf(text, ':').value;
      SplitOn(text, ':') == [text[..k], text[k + 1..]]
  {
    match IndexOf(text, ':')
    case None =>
      SplitNone(text, ':');
    case Some(k) =>
      assert ':' !in text[..k];
      SplitAtFirst(text, ':', k);
      SplitAgain(text[k + 1..], ':');
  }

  lemma RadiansMonotone(a: real, b: real)
    requires a <= b
    ensures Radians(a) <= Radians(b)
  {
  }

  /** What an accepted rule does once the exercise controller applies it to
      column indx: the rule the form builds always has the angles its type
      needs, so a "fixed" or "range" rule applies without error, and a range
      rule, whose bounds the form has put in order, leaves every frame of
      the column between the two bounds. A rule of any other type passes the
      range checks and then fails in the controller. */
  lemma AcceptedRuleApplies(kind: string, group: int, text: string, parse: string -> Option<real>,
                            m: Matrix, indx: int)
    requires HasColumn(m, indx)
    requires ValidateRule(kind, group, text, parse).accepted
    ensures var call := ValidateRule(kind, group, text, parse).calls[0];
      var res := RuleResult(m, indx, Rule(call.kind, call.angles));
      (kind == "fixed" || kind == "range" ==> res.Ok?) &&
      (kind != "fixed" && kind != "range" ==> res == Err(UnboundLocalError)) &&
      (kind == "range" ==>
        forall i :: 0 <= i < |m| ==>
          Radians(call.angles.low) <= res.value[i][indx] <= Radians(call.angles.high))
  {
    var call := ValidateRule(kind, group, text, parse).calls[0];
    if kind == "range" {
      var lo, hi := call.angles.low, call.angles.high;
      assert lo <= hi;
      RadiansMonotone(lo, hi);
      RangeRuleSpec(m, indx, Radians(lo), Radians(hi));
    }
  }

  // ---------------------------------------------------------------------------
  // KeypointEditForm: the current keypoint and its neighbours
  // ---------------------------------------------------------------------------

  /** One entry of keypoints_spec: the keypoint's name and its SMPL joint. */
  datatype Keypoint = Keypoint(name: string, smplIndx: int)

  function Names(keypoints: seq<Keypoint>): (names: seq<string>)
    ensures |names| == |keypoints|
    ensures forall i :: 0 <= i < |keypoints| ==> names[i] == keypoints[i].name
  {
    seq(|keypoints|, i requires 0 <= i < |keypoints| => keypoints[i].name)
  }

  predicate IsLetter(c: char)
  {
    ('a' <= c <= 'z') || ('A' <= c <= 'Z')
  }

  function Upper(c: char): char
  {
    if 'a' <= c <= 'z' then (c as int - 32) as char else c
  }

  function Lower(c: char): char
  {
    if 'A' <= c <= 'Z' then (c as int + 32) as char else c
  }

  /** str.title over ASCII: a letter right after a letter is lowered, any
      other letter raised; other characters stay. */
  function TitleFrom(s: string, afterLetter: bool): (r: string)
    ensures |r| == |s|
  {
    if s == [] then []
    else
      var c := s[0];
      [if !IsLetter(c) then c else if afterLetter then Lower(c) else Upper(c)]
        + TitleFrom(s[1..], IsLetter(c))
  }

  function Title(s: string): string
  {
    TitleFrom(s, false)
  }

  /** Title-casing keeps every non-letter where it was and changes no letter
      into anything but its upper or lower case, and a title-cased name is
      left alone by a second title(). */
  lemma {:induction false} TitleFromSpec(s: string, afterLetter: bool)
    ensures forall i :: 0 <= i < |s| && !IsLetter(s[i]) ==> TitleFrom(s, afterLetter)[i] == s[i]
    ensures forall i :: 0 <= i < |s| && IsLetter(s[i]) ==>
      TitleFrom(s, afterLetter)[i] == Upper(s[i]) || TitleFrom(s, afterLetter)[i] == Lower(s[i])
    ensures TitleFrom(TitleFrom(s, afterLetter), afterLetter) == TitleFrom(s, afterLetter)
  {
    if s != [] {
      var c := s[0];
      TitleFromSpec(s[1..], IsLetter(c));
      var t := TitleFrom(s, afterLetter);
      var d := t[0];
      assert IsLetter(d) == IsLetter(c);
      assert t[1..] == TitleFrom(s[1..], IsLetter(c));
      forall i | 0 <= i < |s| && !IsLetter(s[i])
        ensures t[i] == s[i]
      {
        if i > 0 {
          assert t[i] == TitleFrom(s[1..], IsLetter(c))[i - 1];
        }
      }
      forall i | 0 <= i < |s| && IsLetter(s[i])
        ensures t[i] == Upper(s[i]) || t[i] == Lower(s[i])
      {
        if i > 0 {
          assert t[i] == TitleFrom(s[1..], IsLetter(c))[i - 1];
        }
      }
    }
  }

  /** KeypointEditForm: the keypoint being edited, the names of its
      neighbours, and the joints the highlight callback was asked to show. */
  class KeypointEditForm {
    const keypoints: seq<Keypoint>
    var kpntIndx: int
    var smplKpntIndx: int
    var prevKpnt: string
    var nextKpnt: string
    var currKpnt: string
    var highlighted: seq<int>

    /** What the kpnt_indx setter establishes. */
    predicate Valid()
      reads this
    {
      |keypoints| > 0 && 0 <= kpntIndx < |keypoints| &&
      smplKpntIndx == keypoints[kpntIndx].smplIndx &&
      prevKpnt == keypoints[PrevIndex(kpntIndx, |keypoints|)].name &&
      nextKpnt == keypoints[NextIndex(kpntIndx, |keypoints|)].name &&
      currKpnt == Title(keypoints[kpntIndx].name)
    }

    /** The form opened on keypoint `indx`, found by set_curr_keypoint. */
    constructor (spec: seq<Keypoint>, indx: int)
      requires 0 <= indx < |spec|
      ensures keypoints == spec && kpntIndx == indx && Valid()
      ensures highlighted == [spec[indx].smplIndx]
    {
      keypoints := spec;
      new;
      highlighted := [];
      SetKpntIndx(indx);
    }

    /** The kpnt_indx setter: stores the index, looks up the joint, refreshes
        the three names and highlights the joint. */
    method SetKpntIndx(newIndx: int)
      requires 0 <= newIndx < |keypoints|
      modifies this
      ensures Valid() && kpntIndx == newIndx
      ensures highlighted == old(highlighted) + [keypoints[newIndx].smplIndx]
    {
      var n := |keypoints|;
      kpntIndx := newIndx;
      smplKpntIndx := keypoints[newIndx].smplIndx;
      prevKpnt := keypoints[PyMod(newIndx - 1, n)].name;
      nextKpnt := keypoints[PyMod(newIndx + 1, n)].name;
      currKpnt := Title(keypoints[newIndx].name);
      highlighted := highlighted + [smplKpntIndx];
    }

    /** cycle_prev: the previous keypoint becomes current, and the one that
        was current is now the next one. */
    method CyclePrev()
      requires Valid()
      modifies this
      ensures Valid() && kpntIndx == PrevIndex(old(kpntIndx), |keypoints|)
      ensures nextKpnt == keypoints[old(kpntIndx)].name
      ensures highlighted == old(highlighted) + [keypoints[kpntIndx].smplIndx]
    {
      CycleInverse(kpntIndx, |keypoints|);
      SetKpntIndx(PyMod(kpntIndx - 1, |keypoints|));
    }

    /** cycle_next: the next keypoint becomes current, and the one that was
        current is now the previous one. */
    method CycleNext()
      requires Valid()
      modifies this
      ensures Valid() && kpntIndx == NextIndex(old(kpntIndx), |keypoints|)
      ensures prevKpnt == keypoints[old(kpntIndx)].name
      ensures highlighted == old(highlighted) + [keypoints[kpntIndx].smplIndx]
    {
      CycleInverse(kpntIndx, |keypoints|);
      SetKpntIndx(PyMod(kpntIndx + 1, |keypoints|));
    }

    /** _get_theta_indx */
    function ThetaIndx(axis: int): (t: int)
      reads this
      ensures smplKpntIndx >= 0 && 0 <= axis < 3 ==> Decompose(t) == (smplKpntIndx, axis)
    {
      if smplKpntIndx >= 0 then ThetaIndexRoundTrip(smplKpntIndx, axis); ThetaIndex(smplKpntIndx, axis)
      else ThetaIndex(smplKpntIndx, axis)
    }
  }

  /** Opening the form on a keypoint name: set_curr_keypoint takes the first
      keypoint of that name; when there is none, next() raises StopIteration. */
  method OpenForm(spec: seq<Keypoint>, name: string) returns (r: Result<KeypointEditForm>)
    ensures r.Err? <==> name !in Names(spec)
    ensures r.Err? ==> r.error == StopIteration
    ensures r.Ok? ==>
      fresh(r.value) && r.value.Valid() && r.value.keypoints == spec &&
      Some(r.value.kpntIndx) == IndexOf(Names(spec), name) &&
      spec[r.value.kpntIndx].name == name
  {
    match IndexOf(Names(spec), name)
    case None =>
      r := Err(StopIteration);
    case Some(k) =>
      var form := new KeypointEditForm(spec, k);
      r := Ok(form);
  }

  // ---------------------------------------------------------------------------
  // Theta indices
  // ---------------------------------------------------------------------------

  /** The theta column of an axis of an SMPL joint: three per joint. */
  function ThetaIndex(smpl: int, axis: int): int
  {
    3 * smpl + axis
  }

  /** `int(theta_indx / 3), theta_indx % 3`: joint and axis of a theta column. */
  function Decompose(t: int): (int, int)
  {
    (TruncDiv(t, 3), PyMod(t, 3))
  }

  /** Composing and decomposing are inverse: every axis 0..2 of a joint is
      recovered from its column, and any other axis is not. */
  lemma ThetaIndexRoundTrip(smpl: int, axis: int)
    requires smpl >= 0
    ensures Decompose(ThetaIndex(smpl, axis)) == (smpl, axis) <==> 0 <= axis < 3
  {
    var t := ThetaIndex(smpl, axis);
    if 0 <= axis < 3 {
      DivModUnique(t, 3, smpl, axis);
    }
  }

  /** Every non-negative column is the column of its own joint and axis. */
  lemma DecomposeRoundTrip(t: int)
    requires t >= 0
    ensures var (smpl, axis) := Decompose(t);
      0 <= axis < 3 && smpl >= 0 && ThetaIndex(smpl, axis) == t
  {
  }

  /** The 24 SMPL joints and their three axes cover exactly the 72 pose
      columns: the form can never address a shape column. */
  lemma ThetaIndexInPose(smpl: int, axis: int)
    requires 0 <= smpl < 24 && 0 <= axis < 3
    ensures 0 <= ThetaIndex(smpl, axis) < PoseParams
  {
  }
}
