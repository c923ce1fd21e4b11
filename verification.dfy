/**
 * src/routes/JoinPage/Verify.jsx: the six-box code entry. The component's
 * state (`code`, `error`, the two in-flight flags) and the six input boxes
 * are the fields of `Verify`; each asynchronous handler is split at its
 * `await` into the click (up to the request) and the continuation that runs
 * when the request settles.
 */
module Verification {
  import opened Wrappers
  import opened JsText
  import opened Remote
  import opened Auth
  import opened Session

  const CodeLength := 6
  const IncompleteCode := "Please enter a complete 6-digit code"
  const InvalidCode := "Invalid or expired code. Please try again."
  const VerificationFailed := "Verification failed. Please check your code and try again."
  const ResendFailed := "Failed to resend code. Please try again."
  const PlansPath := "/plans"

  // ---- Editing the code ----

  /** `/^[a-z]+$/`. */
  predicate AllLowerLetters(v: string) {
    v != [] && forall k :: 0 <= k < |v| ==> IsAsciiLower(v[k])
  }

  /** The value `handleInput` stores: an all-lowercase entry upper-cased, anything else as typed. */
  function DisplayedValue(v: string): string {
    if AllLowerLetters(v) then AsciiUpper(v) else v
  }

  /**
   * `[...code]`, assignment at `index`, `join("")`: past the end the array
   * grows with holes that join as empty strings, so the value is appended.
   */
  function ReplaceAt(code: string, i: nat, v: string): string {
    if i < |code| then code[..i] + v + code[i + 1..] else code + v
  }

  /** `slice(0, index) + slice(index + 1)`, both slices clamped to the string. */
  function RemoveAt(code: string, i: nat): string {
    if i < |code| then code[..i] + code[i + 1..] else code
  }

  /** The concatenation of the boxes' values, in order. */
  function Concat(parts: seq<string>): string {
    if parts == [] then [] else parts[0] + Concat(parts[1..])
  }

  /** A displayed value has the entry's length and is never all lowercase letters. */
  lemma DisplayedValueShape(v: string)
    ensures |DisplayedValue(v)| == |v|
    ensures !AllLowerLetters(DisplayedValue(v))
    ensures DisplayedValue(DisplayedValue(v)) == DisplayedValue(v)
    ensures (forall k :: 0 <= k < |v| ==> IsAsciiDigit(v[k])) ==> DisplayedValue(v) == v
  {
    if AllLowerLetters(v) {
      assert !IsAsciiLower(DisplayedValue(v)[0]);
    }
  }

  /** A lowercase letter is shown as its capital; digits are kept. */
  lemma DisplayedLetter(c: char)
    requires IsAsciiLower(c)
    ensures DisplayedValue([c]) == [(c as int - 32) as char]
  {
  }

  /** Replacing inside the code: lengths, the untouched prefix and suffix, and the new value in place. */
  lemma ReplaceAtInside(code: string, i: nat, v: string)
    requires i < |code|
    ensures var r := ReplaceAt(code, i, v);
            && |r| == |code| - 1 + |v|
            && r[..i] == code[..i]
            && r[i..i + |v|] == v
            && r[i + |v|..] == code[i + 1..]
  {
  }

  /** Writing past the end appends the value, whatever the distance. */
  lemma ReplaceAtPastEnd(code: string, i: nat, v: string)
    requires |code| <= i
    ensures ReplaceAt(code, i, v) == code + v
  {
  }

  /** A one-character value replaces exactly one character. */
  lemma ReplaceAtChar(code: string, i: nat, c: char)
    requires i < |code|
    ensures ReplaceAt(code, i, [c]) == code[i := c]
  {
    var r := ReplaceAt(code, i, [c]);
    assert |r| == |code|;
    forall k | 0 <= k < |code|
      ensures r[k] == code[i := c][k]
    {
      if k < i {
        assert r[k] == code[..i][k];
      } else if k > i {
        assert r[k] == code[i + 1..][k - i - 1];
      }
    }
  }

  /** Clearing a box inside the code deletes that character, as the delete key does. */
  lemma ReplaceAtEmptyIsRemoveAt(code: string, i: nat)
    requires i < |code|
    ensures ReplaceAt(code, i, "") == RemoveAt(code, i)
    ensures |RemoveAt(code, i)| == |code| - 1
  {
    assert code[..i] + "" == code[..i];
  }

  /** Deleting keeps everything before the position and shifts everything after it down by one. */
  lemma RemoveAtShifts(code: string, i: nat)
    ensures var r := RemoveAt(code, i);
            && |r| == (if i < |code| then |code| - 1 else |code|)
            && (forall k :: 0 <= k < i && k < |r| ==> r[k] == code[k])
            && (i < |code| ==> forall k :: i <= k < |r| ==> r[k] == code[k + 1])
  {
  }

  /** Boxes holding one character each concatenate to a string with one character per box. */
  lemma {:induction false} ConcatSingles(parts: seq<string>)
    requires forall k :: 0 <= k < |parts| ==> |parts[k]| == 1
    ensures |Concat(parts)| == |parts|
    ensures forall k :: 0 <= k < |parts| ==> Concat(parts)[k] == parts[k][0]
  {
    if parts != [] {
      ConcatSingles(parts[1..]);
      assert Concat(parts) == parts[0] + Concat(parts[1..]);
      forall k | 1 <= k < |parts|
        ensures Concat(parts)[k] == parts[k][0]
      {
        assert Concat(parts)[k] == Concat(parts[1..])[k - 1];
        assert parts[1..][k - 1] == parts[k];
      }
    }
  }

  /** While every box and every entry is one character, the code string follows the boxes. */
  lemma ReplaceAtFollowsBoxes(boxes: seq<string>, i: nat, c: char)
    requires forall k :: 0 <= k < |boxes| ==> |boxes[k]| == 1
    requires i < |boxes|
    ensures ReplaceAt(Concat(boxes), i, [c]) == Concat(boxes[i := [c]])
  {
    ConcatSingles(boxes);
    ConcatSingles(boxes[i := [c]]);
    ReplaceAtChar(Concat(boxes), i, c);
    var a := ReplaceAt(Concat(boxes), i, [c]);
    var b := Concat(boxes[i := [c]]);
    assert |a| == |b|;
    forall k | 0 <= k < |a|
      ensures a[k] == b[k]
    {
    }
  }

  /**
   * Clearing a box of a complete code and typing a new digit into it leaves a
   * five-character code although all six boxes show a digit.
   */
  lemma ClearThenRetypeDesyncs()
    ensures ReplaceAt(ReplaceAt("123456", 2, DisplayedValue("")), 2, DisplayedValue("9")) == "12956"
    ensures Concat(["1", "2", "9", "4", "5", "6"]) == "129456"
  {
    assert ReplaceAt("123456", 2, "") == "12456";
    assert ReplaceAt("12456", 2, "9") == "12956";
  }

  /**
   * The evidently intended edit: the code is the concatenation of the boxes
   * after the box at `i` takes its displayed value.
   */
  function MirroredCode(boxes: seq<string>, i: nat, v: string): (r: string)
    requires i < |boxes|
  {
    Concat(boxes[i := DisplayedValue(v)])
  }

  /**
   * With the mirrored edit, typing one character into box `i` while every
   * other box holds one character gives a complete code of their characters,
   * whatever box `i` held before (a cleared box included).
   */
  lemma MirroredCodeComplete(boxes: seq<string>, i: nat, v: string)
    requires i < |boxes| && |v| == 1
    requires forall k :: 0 <= k < |boxes| && k != i ==> |boxes[k]| == 1
    ensures |MirroredCode(boxes, i, v)| == |boxes|
    ensures MirroredCode(boxes, i, v)[i] == DisplayedValue(v)[0]
    ensures forall k :: 0 <= k < |boxes| && k != i ==> MirroredCode(boxes, i, v)[k] == boxes[k][0]
  {
    DisplayedValueShape(v);
    ConcatSingles(boxes[i := DisplayedValue(v)]);
  }

  /** The input of `ClearThenRetypeDesyncs` under the mirrored edit: the code is complete and follows the boxes. */
  lemma MirroredRetypeComplete()
    ensures MirroredCode(["1", "2", "", "4", "5", "6"], 2, "9") == "129456"
  {
    MirroredCodeComplete(["1", "2", "", "4", "5", "6"], 2, "9");
    assert DisplayedValue("9") == "9";
    var r := MirroredCode(["1", "2", "", "4", "5", "6"], 2, "9");
    assert r[0] == '1' && r[1] == '2' && r[2] == '9' && r[3] == '4' && r[4] == '5' && r[5] == '6';
  }

  // ---- The component ----

  class Verify {
    const username: string
    const storage: Store
    const boxes: array<string>
    var code: string
    var error: string
    var isVerifying: bool
    var isResending: bool

    /** Six boxes, and at most one request in flight. */
    predicate Valid()
      reads this
    {
      boxes.Length == CodeLength && !(isVerifying && isResending)
    }

    /** `disabled={isVerifying || isResending}` on both buttons. */
    predicate ButtonsDisabled()
      reads this
    {
      isVerifying || isResending
    }

    constructor (username: string, storage: Store)
      ensures Valid() && fresh(boxes)
      ensures boxes[..] == seq(CodeLength, _ => "")
      ensures this.username == username && this.storage == storage
      ensures code == "" && error == "" && !isVerifying && !isResending
    {
      this.username := username;
      this.storage := storage;
      boxes := new string[CodeLength](_ => "");
      code := "";
      error := "";
      isVerifying := false;
      isResending := false;
    }

    /** A click on Verify, up to the `await`: the request to confirm, if one is sent. */
    method ClickVerify() returns (request: Option<Call>)
      requires Valid()
      modifies this
      ensures Valid()
      ensures old(ButtonsDisabled()) ==>
                request == None && error == old(error) && isVerifying == old(isVerifying) && isResending == old(isResending)
      ensures !old(ButtonsDisabled()) && |code| != CodeLength ==>
                request == None && error == IncompleteCode && !isVerifying && !isResending
      ensures !old(ButtonsDisabled()) && |code| == CodeLength ==>
                request == Some(ConfirmSignUp(username, code)) && error == "" && isVerifying && !isResending
      ensures code == old(code)
    {
      request := None;
      if ButtonsDisabled() {
        return;
      }
      if |code| != CodeLength {
        error := IncompleteCode;
        return;
      }
      isVerifying := true;
      error := "";
      request := Some(ConfirmSignUp(username, code));
    }

    /**
     * The rest of `handleVerify`, once `verifyUser` has settled on `confirm`;
     * `markThrows` says whether `markSignupComplete` threw.
     */
    method VerifyFinished(confirm: Outcome<()>, markThrows: bool) returns (calls: seq<Call>)
      requires Valid() && isVerifying
      modifies this, storage
      ensures Valid() && !isVerifying && isResending == old(isResending) && code == old(code)
      ensures calls == (if confirm.Returned? then [MarkSignupComplete] else [])
                       + (if confirm.Returned? && !markThrows then [Navigate(PlansPath)] else [])
      ensures error == if !confirm.Returned? then InvalidCode
                       else if markThrows then VerificationFailed
                       else old(error)
      ensures storage.available == old(storage.available)
      ensures storage.items == if confirm.Returned? && !markThrows && storage.available
                               then old(storage.items) - {PendingVerificationKey, PendingUsernameKey}
                               else old(storage.items)
    {
      calls := [];
      var outcome := VerifyUser(confirm);
      if outcome.Returned? && outcome.value {
        calls := calls + [MarkSignupComplete];
        if markThrows {
          error := VerificationFailed;
        } else {
          storage.RemoveItems({PendingVerificationKey, PendingUsernameKey});
          calls := calls + [Navigate(PlansPath)];
        }
      } else {
        error := if outcome.Threw? then VerificationFailed else InvalidCode;
      }
      isVerifying := false;
    }

    /** A click on Resend Code, up to the `await`. */
    method ClickResend() returns (request: Option<Call>)
      requires Valid()
      modifies this
      ensures Valid() && code == old(code) && isVerifying == old(isVerifying)
      ensures old(ButtonsDisabled()) ==> request == None && error == old(error) && isResending == old(isResending)
      ensures !old(ButtonsDisabled()) ==> request == Some(ResendSignUpCode(username)) && error == "" && isResending
    {
      request := None;
      if ButtonsDisabled() {
        return;
      }
      isResending := true;
      error := "";
      request := Some(ResendSignUpCode(username));
    }

    /** The rest of `handleResendCode`, once `resendConfirmationCode` has settled on `resend`. */
    method ResendFinished(resend: Outcome<()>)
      requires Valid() && isResending
      modifies this
      ensures Valid() && !isResending && !isVerifying && code == old(code)
      ensures error == if resend.Returned? then "" else ResendFailed
    {
      error := if ResendShowsCode(resend) then "" else ResendFailed;
      isResending := false;
    }

    /** `handleInput` for box `index` with the box's new `value`. */
    method HandleInput(index: nat, value: string)
      requires Valid() && index < CodeLength
      modifies this, boxes
      ensures Valid()
      ensures boxes[..] == old(boxes[..])[index := DisplayedValue(value)]
      ensures code == ReplaceAt(old(code), index, DisplayedValue(value))
      ensures error == old(error) && isVerifying == old(isVerifying) && isResending == old(isResending)
    {
      var shown := DisplayedValue(value);
      code := ReplaceAt(code, index, shown);
      boxes[index] := shown;
    }

    /** `handleKeyDown` for box `index`: Backspace (8) or Delete (46) on an empty box deletes from the code. */
    method HandleKeyDown(index: nat, keyCode: int)
      requires Valid() && index < CodeLength
      modifies this
      ensures Valid()
      ensures code == if (keyCode == 8 || keyCode == 46) && boxes[index] == "" then RemoveAt(old(code), index)
                      else old(code)
      ensures error == old(error) && isVerifying == old(isVerifying) && isResending == old(isResending)
    {
      if (keyCode == 8 || keyCode == 46) && boxes[index] == "" {
        code := RemoveAt(code, index);
      }
    }

    /** `handlePaste`: a six-character text becomes the code, one character per box. */
    method HandlePaste(text: string)
      requires Valid()
      modifies this, boxes
      ensures Valid()
      ensures |text| == CodeLength ==> code == text && forall k :: 0 <= k < CodeLength ==> boxes[k] == [text[k]]
      ensures |text| != CodeLength ==> code == old(code) && boxes[..] == old(boxes[..])
      ensures error == old(error) && isVerifying == old(isVerifying) && isResending == old(isResending)
    {
      if |text| != CodeLength {
        return;
      }
      code := text;
      for i := 0 to CodeLength
        modifies boxes
        invariant forall k :: 0 <= k < i ==> boxes[k] == [text[k]]
      {
        boxes[i] := [text[i]];
      }
    }
  }

  /** A pasted code is a complete code: the next click on Verify sends it. */
  lemma PastedCodeIsComplete(text: string)
    requires |text| == CodeLength
    ensures Concat(seq(CodeLength, k requires 0 <= k < CodeLength => [text[k]])) == text
  {
    var parts := seq(CodeLength, k requires 0 <= k < CodeLength => [text[k]]);
    ConcatSingles(parts);
  }
}
