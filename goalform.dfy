/**
 * The goal form and goal card's string handling: the trimmed-field check of the form, the
 * goal text shortened for sharing, and the sanitised parts of the download's file name.
 */
module GoalForm {
  import opened Wrappers
  import opened JsString

  /** A locked-in goal, every field as the form stores it. */
  datatype Goal = Goal(name: string, goal: string, timeframe: string, deadline: string)

  const FORM_ERROR: string := "Please fill out all fields accurately."

  /** The longest goal text a share message quotes unshortened. */
  const SHARE_LIMIT: nat := 80

  /**
   * handleGoalSubmit's first check: the name, goal and timeframe trimmed, and the deadline as
   * entered; the form error when a trimmed field or the deadline is empty.
   */
  function ValidateGoal(name: string, goal: string, timeframe: string, deadline: string): Result<Goal, string>
  {
    var trimmedName := Trim(name);
    var trimmedGoal := Trim(goal);
    var trimmedTimeframe := Trim(timeframe);
    if trimmedName == [] || trimmedGoal == [] || trimmedTimeframe == [] || deadline == [] then Err(FORM_ERROR)
    else Ok(Goal(trimmedName, trimmedGoal, trimmedTimeframe, deadline))
  }

  /** A field is blank when it is empty or white space only. */
  predicate Blank(s: string)
  {
    AllWhiteSpace(s)
  }

  /** The form is accepted exactly when no field is blank and a deadline was picked. */
  lemma ValidateGoalAccepts(name: string, goal: string, timeframe: string, deadline: string)
    ensures ValidateGoal(name, goal, timeframe, deadline).Ok?
      <==> !Blank(name) && !Blank(goal) && !Blank(timeframe) && deadline != []
    ensures ValidateGoal(name, goal, timeframe, deadline).Err? ==>
      ValidateGoal(name, goal, timeframe, deadline).error == FORM_ERROR
  {
    TrimEmptyIffBlank(name);
    TrimEmptyIffBlank(goal);
    TrimEmptyIffBlank(timeframe);
  }

  /**
   * An accepted goal keeps each text field with its surrounding white space cut off and
   * nothing else changed, and the deadline exactly as entered.
   */
  lemma ValidateGoalTrims(name: string, goal: string, timeframe: string, deadline: string)
    requires ValidateGoal(name, goal, timeframe, deadline).Ok?
    ensures var g := ValidateGoal(name, goal, timeframe, deadline).value;
      && g.deadline == deadline
      && Trimmed(g.name) && Trimmed(g.goal) && Trimmed(g.timeframe)
      && IsSliceOf(g.name, name) && IsSliceOf(g.goal, goal) && IsSliceOf(g.timeframe, timeframe)
  {
    var a, b := TrimSlice(name);
    var c, d := TrimSlice(goal);
    var e, f := TrimSlice(timeframe);
  }

  /** Submitting an accepted goal's fields again gives the same goal. */
  lemma ValidateGoalIdempotent(name: string, goal: string, timeframe: string, deadline: string)
    requires ValidateGoal(name, goal, timeframe, deadline).Ok?
    ensures var g := ValidateGoal(name, goal, timeframe, deadline).value;
      ValidateGoal(g.name, g.goal, g.timeframe, g.deadline) == Ok(g)
  {
    TrimIdempotent(name);
    TrimIdempotent(goal);
    TrimIdempotent(timeframe);
  }

  /** Neither end of s is white space. */
  predicate Trimmed(s: string)
  {
    s != [] && !IsWhiteSpace(s[0]) && !IsWhiteSpace(s[|s| - 1])
  }

  /** t is a contiguous piece of s. */
  predicate IsSliceOf(t: string, s: string)
  {
    exists a, b :: 0 <= a <= b <= |s| && t == s[a..b]
  }

  /** handleShare's goal text: a goal over 80 characters cut to its first 77 and "...". */
  function ShareText(goal: string): (r: string)
    ensures |r| <= SHARE_LIMIT
  {
    if |goal| > SHARE_LIMIT then goal[..77] + "..." else goal
  }

  /**
   * A goal of at most 80 characters is quoted whole; a longer one becomes exactly 80
   * characters, its first 77 followed by "...".
   */
  lemma ShareTextShape(goal: string)
    ensures |goal| <= SHARE_LIMIT ==> ShareText(goal) == goal
    ensures |goal| > SHARE_LIMIT ==>
      (|ShareText(goal)| == SHARE_LIMIT && ShareText(goal)[..77] == goal[..77] && ShareText(goal)[77..] == "...")
  {
  }

  /** Shortening a shortened goal changes nothing. */
  lemma ShareTextIdempotent(goal: string)
    ensures ShareText(ShareText(goal)) == ShareText(goal)
  {
  }

  predicate IsAsciiAlphanumeric(c: char)
  {
    'a' <= c <= 'z' || 'A' <= c <= 'Z' || '0' <= c <= '9'
  }

  /** toLowerCase on the characters a sanitised part can hold. */
  function LowerAscii(c: char): char
  {
    if 'A' <= c <= 'Z' then (c as int - 'A' as int + 'a' as int) as char else c
  }

  /** replace(/[^a-z0-9]/gi, '_'): every character other than an ASCII letter or digit becomes '_'. */
  function ReplaceUnsafe(s: string): (r: string)
    ensures |r| == |s|
  {
    seq(|s|, i requires 0 <= i < |s| => if IsAsciiAlphanumeric(s[i]) then s[i] else '_')
  }

  /** toLowerCase of a string made of ASCII letters, digits and '_'. */
  function ToLowerCase(s: string): (r: string)
    ensures |r| == |s|
  {
    seq(|s|, i requires 0 <= i < |s| => LowerAscii(s[i]))
  }

  /** The characters a sanitised part is made of: lower-case letters, digits and '_'. */
  predicate IsFileNameChar(c: char)
  {
    'a' <= c <= 'z' || '0' <= c <= '9' || c == '_'
  }

  /** safeName: the name with every unsafe character replaced by '_', then lower-cased. */
  function SafePart(s: string): string
  {
    ToLowerCase(ReplaceUnsafe(s))
  }

  /** substring(0, 10): at most the first ten characters. */
  function Prefix10(s: string): (r: string)
    ensures |r| <= 10
  {
    if |s| <= 10 then s else s[..10]
  }

  /** safeGoal: the first ten characters of the goal, sanitised like the name. */
  function SafeGoalPart(goal: string): string
  {
    SafePart(Prefix10(goal))
  }

  /**
   * A sanitised part has one character per character of the input: the letter lower-cased,
   * the digit kept, anything else as '_'; so it only holds file-name characters.
   */
  lemma SafePartChars(s: string)
    ensures |SafePart(s)| == |s|
    ensures forall i :: 0 <= i < |s| ==>
      SafePart(s)[i] == (if IsAsciiAlphanumeric(s[i]) then LowerAscii(s[i]) else '_')
    ensures forall i :: 0 <= i < |s| ==> IsFileNameChar(SafePart(s)[i])
  {
    var r := ReplaceUnsafe(s);
    assert forall i :: 0 <= i < |s| ==> SafePart(s)[i] == LowerAscii(r[i]);
  }

  /** Sanitising a sanitised part changes nothing. */
  lemma SafePartIdempotent(s: string)
    ensures SafePart(SafePart(s)) == SafePart(s)
  {
    var r := SafePart(s);
    SafePartChars(s);
    SafePartChars(r);
    assert forall i :: 0 <= i < |r| ==> IsAsciiAlphanumeric(r[i]) || r[i] == '_';
  }

  /** safeGoal is at most ten file-name characters, the sanitised start of the goal. */
  lemma SafeGoalPartShape(goal: string)
    ensures |SafeGoalPart(goal)| == (if |goal| <= 10 then |goal| else 10)
    ensures forall i :: 0 <= i < |SafeGoalPart(goal)| ==> IsFileNameChar(SafeGoalPart(goal)[i])
    ensures SafeGoalPart(goal) == SafePart(goal)[..|SafeGoalPart(goal)|]
  {
    var p := Prefix10(goal);
    SafePartChars(p);
    SafePartChars(goal);
  }

  /** link.download: lockin-goal-<safeName>-<safeGoal>-<Date.now()>.png. */
  function DownloadName(goal: Goal, now: nat): string
  {
    "lockin-goal-" + SafePart(goal.name) + "-" + SafeGoalPart(goal.goal) + "-" + DecimalString(now) + ".png"
  }

  /** The download's name holds only lower-case letters, digits, '_', '-' and '.'. */
  lemma DownloadNameChars(goal: Goal, now: nat)
    ensures forall i :: 0 <= i < |DownloadName(goal, now)| ==>
      IsFileNameChar(DownloadName(goal, now)[i]) || DownloadName(goal, now)[i] in "-."
  {
    SafePartChars(goal.name);
    SafeGoalPartShape(goal.goal);
    var a := "lockin-goal-" + SafePart(goal.name) + "-";
    var b := SafeGoalPart(goal.goal) + "-";
    var c := DecimalString(now) + ".png";
    assert DownloadName(goal, now) == a + b + c;
    forall i | 0 <= i < |a + b + c|
      ensures IsFileNameChar((a + b + c)[i]) || (a + b + c)[i] in "-."
    {
      if i < |a| {
        if i >= 12 && i < |a| - 1 {
          assert a[i] == SafePart(goal.name)[i - 12];
        }
      } else if i < |a| + |b| {
        if i - |a| < |b| - 1 {
          assert (a + b + c)[i] == SafeGoalPart(goal.goal)[i - |a|];
        }
      } else {
        assert (a + b + c)[i] == c[i - |a| - |b|];
      }
    }
  }
}
