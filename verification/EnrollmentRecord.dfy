/**
 The enrolment record and its one-line text file: Enrollment::save prints it, Enrollment::load parses it.
 A file is an Option<string>: None when it does not exist.
 */
module EnrollmentRecord {
  import opened Wrappers
  import opened Decimal

  const CV_ENGINE: string := "cv"

  datatype Enrollment = Enrollment(
    userId: int,
    enrollmentId: int,
    authenticatorId: int,
    requireAttention: bool,
    engine: string)

  /** The member initialisers of struct Enrollment: what load returns when there is no usable record. */
  const NO_ENROLLMENT: Enrollment := Enrollment(-1, 0, 0, true, "")

  /** The widths of the record's integer fields. */
  predicate InRange(e: Enrollment) {
    && INT32_MIN <= e.userId <= INT32_MAX
    && INT32_MIN <= e.enrollmentId <= INT32_MAX
    && INT64_MIN <= e.authenticatorId <= INT64_MAX
  }

  function TrimLeft(s: string): string {
    if s != [] && IsSpace(s[0]) then TrimLeft(s[1..]) else s
  }

  function TrimRight(s: string): string {
    if s != [] && IsSpace(s[|s| - 1]) then TrimRight(s[..|s| - 1]) else s
  }

  /** android::base::Trim */
  function Trim(s: string): string {
    TrimRight(TrimLeft(s))
  }

  /** android::base::Split at single spaces: adjacent separators give empty fields. */
  function Split(s: string): (fields: seq<string>)
    ensures |fields| > 0
  {
    if s == [] then [""]
    else
      var rest := Split(s[1..]);
      if s[0] == ' ' then [""] + rest else [[s[0]] + rest[0]] + rest[1..]
  }

  function Flag(b: bool): string {
    if b then "1" else "0"
  }

  /** The first four fields, separated by spaces: the whole line in the older format. */
  function LegacyText(e: Enrollment): string {
    Print(e.userId) + " " + Print(e.enrollmentId) + " " + Print(e.authenticatorId) + " " + Flag(e.requireAttention)
  }

  function Text(e: Enrollment): string {
    LegacyText(e) + " " + e.engine
  }

  /** Enrollment::save when the write or unlink works: a record without a user deletes the file. */
  function Saved(e: Enrollment): Option<string> {
    if e.userId < 0 then None else Some(Text(e))
  }

  function ParseFields(fields: seq<string>): Option<Enrollment> {
    if |fields| != 4 && |fields| != 5 then Some(NO_ENROLLMENT)
    else
      var user := Parse(fields[0], INT32_MIN, INT32_MAX);
      var enrollment := Parse(fields[1], INT32_MIN, INT32_MAX);
      var authenticator := Parse(fields[2], INT64_MIN, INT64_MAX);
      if user.None? || enrollment.None? || authenticator.None? then None
      else
        Some(Enrollment(user.value, enrollment.value, authenticator.value, fields[3] == "1",
                        if |fields| == 5 then fields[4] else CV_ENGINE))
  }

  /** Enrollment::load; None stands for the exception a malformed number raises. */
  function Load(file: Option<string>): (r: Option<Enrollment>)
    ensures r.Some? ==> InRange(r.value)
  {
    if file.None? then Some(NO_ENROLLMENT) else ParseFields(Split(Trim(file.value)))
  }

  /** What a saved record becomes: no user means no record, and the empty engine reads as "cv". */
  function Normalise(e: Enrollment): Enrollment {
    if e.userId < 0 then NO_ENROLLMENT else if e.engine == "" then e.(engine := CV_ENGINE) else e
  }

  /** Engine names the space-separated, trimmed line can carry: no space inside, no white space at the end. */
  predicate EngineFits(engine: string) {
    ' ' !in engine && (engine != [] ==> !IsSpace(engine[|engine| - 1]))
  }

  // ----- Split and Trim

  lemma {:induction false} SplitCons(a: string, b: string)
    requires ' ' !in a
    ensures Split(a + " " + b) == [a] + Split(b)
  {
    if a == [] {
      assert a + " " + b == " " + b;
      assert (" " + b)[1..] == b;
    } else {
      assert (a + " " + b)[1..] == a[1..] + " " + b;
      SplitCons(a[1..], b);
      assert [a[0]] + a[1..] == a;
    }
  }

  lemma {:induction false} SplitSingle(a: string)
    requires ' ' !in a
    ensures Split(a) == [a]
  {
    if a == [] {
    } else {
      SplitSingle(a[1..]);
      assert [a[0]] + a[1..] == a;
    }
  }

  lemma {:induction false} FieldsHaveNoSpaces(s: string)
    ensures forall i :: 0 <= i < |Split(s)| ==> ' ' !in Split(s)[i]
  {
    if s == [] {
    } else {
      FieldsHaveNoSpaces(s[1..]);
    }
  }

  /** The last field ends where the line ends, unless the line ends in a separator. */
  lemma {:induction false} LastFieldEnd(s: string)
    requires s != [] && s[|s| - 1] != ' '
    ensures var last := Split(s)[|Split(s)| - 1]; last != [] && last[|last| - 1] == s[|s| - 1]
  {
    if |s| == 1 {
    } else {
      var tail := s[1..];
      assert tail[|tail| - 1] == s[|s| - 1];
      LastFieldEnd(tail);
      var fields := Split(tail);
      if s[0] == ' ' {
        assert Split(s)[|fields|] == fields[|fields| - 1];
      } else if |fields| == 1 {
        assert Split(s) == [[s[0]] + fields[0]];
      } else {
        assert Split(s)[|fields| - 1] == fields[|fields| - 1];
      }
    }
  }

  lemma {:induction false} TrimRightEnd(s: string)
    ensures var t := TrimRight(s); t != [] ==> !IsSpace(t[|t| - 1])
  {
    if s == [] || !IsSpace(s[|s| - 1]) {
    } else {
      TrimRightEnd(s[..|s| - 1]);
    }
  }

  // ----- Round trips

  lemma SplitFour(u: string, i: string, a: string, rest: string)
    requires ' ' !in u && ' ' !in i && ' ' !in a
    ensures Split(u + " " + i + " " + a + " " + rest) == [u, i, a] + Split(rest)
  {
    assert u + " " + i + " " + a + " " + rest == u + " " + (i + " " + (a + " " + rest));
    SplitCons(u, i + " " + (a + " " + rest));
    SplitCons(i, a + " " + rest);
    SplitCons(a, rest);
  }

  /** The fields of a legacy line, and of a line with an engine behind them. */
  lemma TextFields(e: Enrollment)
    ensures Split(LegacyText(e)) ==
            [Print(e.userId), Print(e.enrollmentId), Print(e.authenticatorId), Flag(e.requireAttention)]
    ensures ' ' !in e.engine ==> (Split(Text(e)) ==
            [Print(e.userId), Print(e.enrollmentId), Print(e.authenticatorId), Flag(e.requireAttention), e.engine])
  {
    var u, i, a, f := Print(e.userId), Print(e.enrollmentId), Print(e.authenticatorId), Flag(e.requireAttention);
    PrintHasNoSpaces(e.userId);
    PrintHasNoSpaces(e.enrollmentId);
    PrintHasNoSpaces(e.authenticatorId);
    SplitFour(u, i, a, f);
    SplitSingle(f);
    if ' ' !in e.engine {
      assert Text(e) == u + " " + i + " " + a + " " + (f + " " + e.engine);
      SplitFour(u, i, a, f + " " + e.engine);
      SplitCons(f, e.engine);
      SplitSingle(e.engine);
    }
  }

  lemma TrimmedText(e: Enrollment)
    ensures Trim(LegacyText(e)) == LegacyText(e)
    ensures e.engine == [] ==> Trim(Text(e)) == LegacyText(e)
    ensures e.engine != [] && EngineFits(e.engine) ==> Trim(Text(e)) == Text(e)
  {
    PrintHasNoSpaces(e.userId);
    assert LegacyText(e)[0] == Print(e.userId)[0];
    assert Text(e)[0] == Print(e.userId)[0];
    assert TrimRight(LegacyText(e)) == LegacyText(e);
    if e.engine == [] {
      var t := Text(e);
      assert t == LegacyText(e) + " ";
      assert t[..|t| - 1] == LegacyText(e);
    } else if EngineFits(e.engine) {
      assert Text(e)[|Text(e)| - 1] == e.engine[|e.engine| - 1];
    }
  }

  lemma NumbersParse(e: Enrollment)
    requires InRange(e)
    ensures Parse(Print(e.userId), INT32_MIN, INT32_MAX) == Some(e.userId)
    ensures Parse(Print(e.enrollmentId), INT32_MIN, INT32_MAX) == Some(e.enrollmentId)
    ensures Parse(Print(e.authenticatorId), INT64_MIN, INT64_MAX) == Some(e.authenticatorId)
  {
    PrintParse(e.userId, INT32_MIN, INT32_MAX);
    PrintParse(e.enrollmentId, INT32_MIN, INT32_MAX);
    PrintParse(e.authenticatorId, INT64_MIN, INT64_MAX);
  }

  /** load after save returns the same record, for every 32- and 64-bit value, up to normalisation. */
  lemma RoundTrip(e: Enrollment)
    requires InRange(e) && EngineFits(e.engine)
    ensures Load(Saved(e)) == Some(Normalise(e))
  {
    NumbersParse(e);
    TextFields(e);
    TrimmedText(e);
  }

  /** A line in the older four-field format loads as an enrolment of the "cv" engine. */
  lemma LegacyLoads(e: Enrollment)
    requires InRange(e)
    ensures Load(Some(LegacyText(e))) == Some(e.(engine := CV_ENGINE))
  {
    NumbersParse(e);
    TextFields(e);
    TrimmedText(e);
  }

  /** Whatever file was loaded, the engine name in the record is one that save can carry, and is not empty. */
  lemma LoadedEngineFits(file: Option<string>)
    requires Load(file).Some? && Load(file) != Some(NO_ENROLLMENT)
    ensures Load(file).value.engine != "" && EngineFits(Load(file).value.engine)
  {
    var line := Trim(file.value);
    var fields := Split(line);
    FieldsHaveNoSpaces(line);
    TrimRightEnd(TrimLeft(file.value));
    if |fields| == 5 {
      assert line != "" by { assert Split("") == [""]; }
      LastFieldEnd(line);
    }
  }

  /** Every record that load ever returns for some user survives save and load unchanged, legacy lines included. */
  lemma SaveKeepsLoaded(file: Option<string>)
    requires Load(file).Some? && Load(file).value.userId >= 0
    ensures Load(Saved(Load(file).value)) == Load(file)
  {
    LoadedEngineFits(file);
    RoundTrip(Load(file).value);
  }

  /** A user's record with an engine name comes back exactly when the name has no space and no trailing white space. */
  lemma RoundTripIff(e: Enrollment)
    requires InRange(e) && e.userId >= 0 && e.engine != ""
    ensures Load(Saved(e)) == Some(e) <==> EngineFits(e.engine)
  {
    if EngineFits(e.engine) {
      RoundTrip(e);
    } else if Load(Saved(e)) == Some(e) {
      LoadedEngineFits(Saved(e));
    }
  }

  // ----- The line itself

  /** The line is the five values in this order between single spaces, the flag as 1 or 0. */
  lemma LineIs(e: Enrollment)
    requires e.userId >= 0
    ensures Saved(e) == Some(Print(e.userId) + " " + Print(e.enrollmentId) + " " + Print(e.authenticatorId) + " " +
                             (if e.requireAttention then "1" else "0") + " " + e.engine)
  {
  }

  lemma PrintSmall()
    ensures Print(0) == "0" && Print(7) == "7" && Print(10) == "10" && Print(-3) == "-3"
  {
    assert PrintNat(1) == "1" && PrintNat(10) == PrintNat(1) + [DigitChar(0)];
  }

  /** Two lines as they stand on disk, one of the present format and one of the older one. */
  lemma SampleLines()
    ensures Text(Enrollment(0, 7, 10, true, "cv")) == "0 7 10 1 cv"
    ensures LegacyText(Enrollment(10, -3, 7, false, "")) == "10 -3 7 0"
  {
    PrintSmall();
  }
}
