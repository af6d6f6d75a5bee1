/**
 * The sign-up form of the service (apps/service/static/signup.js): the password, e-mail and
 * phone patterns, the ordered field validation, the live password messages and the page
 * state that decides whether the join button is enabled.
 */
module Signup {
  import opened Text
  import Sorting

  // ---------------------------------------------------------------------------------------
  // The three patterns

  predicate PwChar(c: char) { IsLower(c) || IsDigit(c) }

  function HasLower(s: string): (r: bool)
    ensures r <==> exists i :: 0 <= i < |s| && IsLower(s[i])
  {
    if s == [] then false
    else if IsLower(s[0]) then true
    else
      assert forall i :: 1 <= i < |s| ==> s[i] == s[1..][i - 1];
      HasLower(s[1..])
  }

  function HasDigit(s: string): (r: bool)
    ensures r <==> exists i :: 0 <= i < |s| && IsDigit(s[i])
  {
    if s == [] then false
    else if IsDigit(s[0]) then true
    else
      assert forall i :: 1 <= i < |s| ==> s[i] == s[1..][i - 1];
      HasDigit(s[1..])
  }

  function AllPwChars(s: string): (r: bool)
    ensures r <==> forall i :: 0 <= i < |s| ==> PwChar(s[i])
  {
    if s == [] then true
    else
      assert forall i :: 1 <= i < |s| ==> s[i] == s[1..][i - 1];
      PwChar(s[0]) && AllPwChars(s[1..])
  }

  /**
   * `/^(?=.*[a-z])(?=.*\d)[a-z\d]{4,16}$/`: the two lookaheads, then the bounded class run.
   * Exactly 4 to 16 characters, all lower-case ASCII letters or digits, with at least one of each.
   */
  function PwRegexTest(s: string): (r: bool)
    ensures r <==> (4 <= |s| <= 16 && (forall i :: 0 <= i < |s| ==> PwChar(s[i]))
      && (exists i :: 0 <= i < |s| && IsLower(s[i])) && (exists j :: 0 <= j < |s| && IsDigit(s[j])))
  {
    HasLower(s) && HasDigit(s) && 4 <= |s| <= 16 && AllPwChars(s)
  }

  /** `/^\d{10,11}$/`: ten or eleven ASCII digits. */
  predicate PhoneRegexTest(s: string) {
    10 <= |s| <= 11 && forall i :: 0 <= i < |s| ==> IsDigit(s[i])
  }

  predicate LocalChar(c: char) {
    IsAsciiLetter(c) || IsDigit(c) || c in {'.', '_', '%', '+', '-'}
  }

  predicate DomainChar(c: char) {
    IsAsciiLetter(c) || IsDigit(c) || c in {'.', '-'}
  }

  /** The index of the first `c` in `s`, if any. */
  function FirstOf(s: string, c: char): (r: Option<nat>)
    ensures r.None? ==> c !in s
    ensures r.Some? ==> r.value < |s| && s[r.value] == c && c !in s[..r.value]
  {
    if s == [] then None
    else if s[0] == c then Some(0)
    else
      var t := FirstOf(s[1..], c);
      if t.None? then None
      else
        assert s[..t.value + 1] == [s[0]] + s[1..][..t.value];
        Some(t.value + 1)
  }

  /** The index of the last `c` in `s`, if any. */
  function LastOf(s: string, c: char): (r: Option<nat>)
    ensures r.None? ==> c !in s
    ensures r.Some? ==> r.value < |s| && s[r.value] == c && c !in s[r.value + 1..]
  {
    if s == [] then None
    else if s[|s| - 1] == c then Some(|s| - 1)
    else
      var t := LastOf(s[..|s| - 1], c);
      if t.None? then None
      else
        assert s[t.value + 1..] == s[..|s| - 1][t.value + 1..] + [s[|s| - 1]];
        t
  }

  /**
   * The e-mail test as a scan: split at the first `@`, then split the domain at its last `.`.
   * A non-empty local part of `[A-Za-z0-9._%+-]`, a non-empty domain name of `[A-Za-z0-9.-]`,
   * and a top-level label of at least two ASCII letters.
   */
  function EmailRegexTest(s: string): bool {
    var at := FirstOf(s, '@');
    if at.None? then false
    else
      var local, domain := s[..at.value], s[at.value + 1..];
      var dot := LastOf(domain, '.');
      if dot.None? then false
      else
        var host, tld := domain[..dot.value], domain[dot.value + 1..];
        local != [] && AllChars(local, LocalChar) && host != [] && AllChars(host, DomainChar)
        && |tld| >= 2 && AllChars(tld, IsAsciiLetter)
  }

  /**
   * What `/^[A-Za-z0-9._%+-]+@[A-Za-z0-9.-]+\.[A-Za-z]{2,}$/` matches, with the backtracking
   * written out: some `@` at `i` and some `.` at `j` cut the text into the three runs.
   */
  ghost predicate EmailShape(s: string) {
    exists i, j :: EmailSplit(s, i, j)
  }

  predicate EmailSplit(s: string, i: int, j: int) {
    0 < i && i + 1 < j && j + 3 <= |s| && s[i] == '@' && s[j] == '.'
    && AllChars(s[..i], LocalChar) && AllChars(s[i + 1..j], DomainChar) && AllChars(s[j + 1..], IsAsciiLetter)
  }

  /** Every text the scan accepts matches the pattern: the split points are the witnesses. */
  lemma EmailTestSound(s: string)
    requires EmailRegexTest(s)
    ensures EmailShape(s)
  {
    var at := FirstOf(s, '@');
    var i := at.value;
    var dot := LastOf(s[i + 1..], '.');
    SplitOfParts(s, i, dot.value);
  }

  /** The cut points of the scan are the `@` and the `.` of a split. */
  lemma SplitOfParts(s: string, i: nat, k: nat)
    requires i + 1 + k < |s| && s[i] == '@' && s[i + 1..][k] == '.'
    requires s[..i] != [] && AllChars(s[..i], LocalChar)
    requires s[i + 1..][..k] != [] && AllChars(s[i + 1..][..k], DomainChar)
    requires |s[i + 1..][k + 1..]| >= 2 && AllChars(s[i + 1..][k + 1..], IsAsciiLetter)
    ensures EmailSplit(s, i, i + 1 + k)
  {
    SliceOfSuffix(s, i + 1, k);
  }

  /** The parts of a suffix of `s`, cut at `k`, as slices of `s`. */
  lemma SliceOfSuffix(s: string, a: nat, k: nat)
    requires a + k < |s|
    ensures s[a..][..k] == s[a..a + k] && s[a..][k + 1..] == s[a + k + 1..] && s[a..][k] == s[a + k]
  {
  }

  /** A local part without `@` makes its end the first `@`. */
  lemma FirstAtIs(s: string, i: nat)
    requires i < |s| && s[i] == '@' && AllChars(s[..i], LocalChar)
    ensures FirstOf(s, '@') == Some(i)
  {
    forall m: nat | m < i ensures s[m] != '@' {
      assert s[..i][m] == s[m];
    }
    assert s[i] in s;
  }

  /** A top-level label without `.` makes the dot before it the last one. */
  lemma LastDotIs(d: string, k: nat)
    requires k < |d| && d[k] == '.' && AllChars(d[k + 1..], IsAsciiLetter)
    ensures LastOf(d, '.') == Some(k)
  {
    forall m | k < m < |d| ensures d[m] != '.' {
      assert d[k + 1..][m - k - 1] == d[m];
    }
    assert d[k] in d;
  }

  /** Every text the pattern matches is accepted by the scan: the witnesses are the split points. */
  lemma EmailTestComplete(s: string)
    requires EmailShape(s)
    ensures EmailRegexTest(s)
  {
    var i, j :| EmailSplit(s, i, j);
    EmailSplitAccepted(s, i, j);
  }

  lemma EmailSplitAccepted(s: string, i: int, j: int)
    requires EmailSplit(s, i, j)
    ensures EmailRegexTest(s)
  {
    FirstAtIs(s, i);
    var domain := s[i + 1..];
    var k := j - i - 1;
    assert domain[k] == '.';
    assert domain[k + 1..] == s[j + 1..];
    LastDotIs(domain, k);
    assert domain[..k] == s[i + 1..j];
  }

  /** The scan accepts exactly the texts the pattern matches. */
  lemma EmailRegexTestMatches(s: string)
    ensures EmailRegexTest(s) <==> EmailShape(s)
  {
    if EmailRegexTest(s) { EmailTestSound(s); }
    if EmailShape(s) { EmailTestComplete(s); }
  }

  // ---------------------------------------------------------------------------------------
  // Field validation

  /** The raw form: seven text fields and the two radio groups (`""` when none is checked). */
  datatype Form = Form(
    userId: string, pw: string, pw2: string, name: string, birthday: string, email: string,
    phone: string, gender: string, ecoState: string)

  /** The data sent to `/register`. */
  datatype Member = Member(
    userId: string, pw: string, name: string, gender: string, birthday: string,
    phone: string, email: string, ecoState: string)

  /** Each way validation can fail, named after the message it shows. */
  datatype Problem =
    | NoId | NoPw | NoPw2 | NoName | NoGender | NoBirthday | NoEmail
    | BadPw | PwMismatch | BadEmail | FutureBirthday | BadPhone

  datatype Validation = Accepted(data: Member) | Rejected(problem: Problem)

  /** The text fields trimmed as the validator reads them; the radio values are taken as they are. */
  function Trimmed(f: Form): Form {
    Form(JsTrim(f.userId), JsTrim(f.pw), JsTrim(f.pw2), JsTrim(f.name), JsTrim(f.birthday),
      JsTrim(f.email), JsTrim(f.phone), f.gender, f.ecoState)
  }

  /** Whether the trimmed form `t` clears the check for `p`; `max` is the birthday input's maximum. */
  predicate Passes(t: Form, max: string, p: Problem) {
    match p
    case NoId => t.userId != ""
    case NoPw => t.pw != ""
    case NoPw2 => t.pw2 != ""
    case NoName => t.name != ""
    case NoGender => t.gender != ""
    case NoBirthday => t.birthday != ""
    case NoEmail => t.email != ""
    case BadPw => PwRegexTest(t.pw)
    case PwMismatch => t.pw == t.pw2
    case BadEmail => EmailRegexTest(t.email)
    case FutureBirthday => !Sorting.StrLess(max, t.birthday)
    case BadPhone => t.phone == "" || PhoneRegexTest(t.phone)
  }

  /** The position of each check in the validator. */
  function Rank(p: Problem): nat {
    match p
    case NoId => 0 case NoPw => 1 case NoPw2 => 2 case NoName => 3 case NoGender => 4
    case NoBirthday => 5 case NoEmail => 6 case BadPw => 7 case PwMismatch => 8
    case BadEmail => 9 case FutureBirthday => 10 case BadPhone => 11
  }

  /**
   * validateFields: the form is accepted iff every check passes; otherwise the problem
   * reported is the first failing check in the fixed order. An accepted form yields all
   * eight fields, trimmed, with phone and economic level possibly empty.
   */
  function ValidateFields(f: Form, max: string): (r: Validation)
    ensures r.Accepted? ==> forall p :: Passes(Trimmed(f), max, p)
    ensures r.Rejected? ==> (!Passes(Trimmed(f), max, r.problem)
      && forall p :: Rank(p) < Rank(r.problem) ==> Passes(Trimmed(f), max, p))
    ensures r.Accepted? ==> (r.data.userId == JsTrim(f.userId) && r.data.pw == JsTrim(f.pw)
      && r.data.name == JsTrim(f.name) && r.data.gender == f.gender && r.data.birthday == JsTrim(f.birthday)
      && r.data.phone == JsTrim(f.phone) && r.data.email == JsTrim(f.email) && r.data.ecoState == f.ecoState)
  {
    ValidateTrimmed(Trimmed(f), max)
  }

  function ValidateTrimmed(t: Form, max: string): (r: Validation)
    ensures r.Accepted? ==> forall p :: Passes(t, max, p)
    ensures r.Rejected? ==> (!Passes(t, max, r.problem) && forall p :: Rank(p) < Rank(r.problem) ==> Passes(t, max, p))
    ensures r.Accepted? ==> r.data == Member(t.userId, t.pw, t.name, t.gender, t.birthday, t.phone, t.email, t.ecoState)
  {
    if t.userId == "" then Rejected(NoId)
    else if t.pw == "" then Rejected(NoPw)
    else if t.pw2 == "" then Rejected(NoPw2)
    else if t.name == "" then Rejected(NoName)
    else if t.gender == "" then Rejected(NoGender)
    else if t.birthday == "" then Rejected(NoBirthday)
    else if t.email == "" then Rejected(NoEmail)
    else ValidateFormats(t, max)
  }

  /** The checks after the seven required-field checks: the password, e-mail, birthday and phone formats. */
  function ValidateFormats(t: Form, max: string): (r: Validation)
    ensures r.Accepted? ==> forall p :: Rank(p) >= 7 ==> Passes(t, max, p)
    ensures r.Rejected? ==> (Rank(r.problem) >= 7 && !Passes(t, max, r.problem)
      && forall p :: 7 <= Rank(p) < Rank(r.problem) ==> Passes(t, max, p))
    ensures r.Accepted? ==> r.data == Member(t.userId, t.pw, t.name, t.gender, t.birthday, t.phone, t.email, t.ecoState)
  {
    if !PwRegexTest(t.pw) then Rejected(BadPw)
    else if t.pw != t.pw2 then Rejected(PwMismatch)
    else ValidateContact(t, max)
  }

  /** The last three checks: the e-mail format, a birthday not after `max`, and the phone format. */
  function ValidateContact(t: Form, max: string): (r: Validation)
    ensures r.Accepted? ==> forall p :: Rank(p) >= 9 ==> Passes(t, max, p)
    ensures r.Rejected? ==> (Rank(r.problem) >= 9 && !Passes(t, max, r.problem)
      && forall p :: 9 <= Rank(p) < Rank(r.problem) ==> Passes(t, max, p))
    ensures r.Accepted? ==> r.data == Member(t.userId, t.pw, t.name, t.gender, t.birthday, t.phone, t.email, t.ecoState)
  {
    if !EmailRegexTest(t.email) then Rejected(BadEmail)
    else if Sorting.StrLess(max, t.birthday) then Rejected(FutureBirthday)
    else if t.phone != "" && !PhoneRegexTest(t.phone) then Rejected(BadPhone)
    else Accepted(Member(t.userId, t.pw, t.name, t.gender, t.birthday, t.phone, t.email, t.ecoState))
  }

  // ---------------------------------------------------------------------------------------
  // Live password messages and the phone filter

  datatype RuleMsg = NoRuleMsg | RuleMet | RuleNotMet
  datatype MatchMsg = NoMatchMsg | AskConfirm | AskPwFirst | Matching | NotMatching

  /** The password-rule line under the password field, on the trimmed password. */
  function PwRuleMsg(pw: string): (r: RuleMsg)
    ensures r == RuleMet <==> PwRegexTest(pw)
    ensures r == NoRuleMsg <==> pw == ""
  {
    if pw == "" then NoRuleMsg else if PwRegexTest(pw) then RuleMet else RuleNotMet
  }

  /** Whether a match message is shown as good. */
  predicate MatchOk(m: MatchMsg) { m == NoMatchMsg || m == Matching }

  /**
   * The match line under the confirmation field, on trimmed values: nothing when both are
   * empty, a complaint when exactly one is, then equal or different.
   */
  function PwMatchMsg(pw: string, pw2: string): (r: MatchMsg)
    ensures r == NoMatchMsg <==> pw == "" && pw2 == ""
    ensures r == Matching <==> pw != "" && pw == pw2
    ensures MatchOk(r) <==> pw == pw2
  {
    if pw == "" && pw2 == "" then NoMatchMsg
    else if pw != "" && pw2 == "" then AskConfirm
    else if pw == "" && pw2 != "" then AskPwFirst
    else if pw == pw2 then Matching
    else NotMatching
  }

  /** An accepted form always shows both password lines as good. */
  lemma AcceptedShowsGoodPasswordLines(f: Form, max: string)
    requires ValidateFields(f, max).Accepted?
    ensures PwRuleMsg(JsTrim(f.pw)) == RuleMet && PwMatchMsg(JsTrim(f.pw), JsTrim(f.pw2)) == Matching
  {
    assert Passes(Trimmed(f), max, NoPw) && Passes(Trimmed(f), max, BadPw) && Passes(Trimmed(f), max, PwMismatch);
  }

  /** `value.replace(/\D/g, "")`: the digits of `s`, in order. */
  function DigitsOnly(s: string): (r: string)
    ensures forall i :: 0 <= i < |r| ==> IsDigit(r[i])
    ensures (forall i :: 0 <= i < |s| ==> IsDigit(s[i])) ==> r == s
    ensures multiset(r) <= multiset(s)
    ensures forall c :: IsDigit(c) ==> multiset(r)[c] == multiset(s)[c]
  {
    if s == [] then []
    else
      assert s == [s[0]] + s[1..];
      if IsDigit(s[0]) then [s[0]] + DigitsOnly(s[1..]) else DigitsOnly(s[1..])
  }

  /** Filtering the phone field twice is the same as once. */
  lemma DigitsOnlyIdempotent(s: string)
    ensures DigitsOnly(DigitsOnly(s)) == DigitsOnly(s)
  {
  }

  // ---------------------------------------------------------------------------------------
  // The page

  /** The join button's rule: validation passes and the id check succeeded. */
  predicate JoinAllowed(f: Form, max: string, idChecked: bool, idAvailable: bool) {
    ValidateFields(f, max).Accepted? && idChecked && idAvailable
  }

  /** The fields other than the user id, which edit the form without touching the id check. */
  datatype Field = Pw | Pw2 | Name | Birthday | Email | Gender | EcoState

  function WithField(f: Form, field: Field, v: string): (r: Form)
    ensures r.userId == f.userId && r.phone == f.phone
  {
    match field
    case Pw => f.(pw := v)
    case Pw2 => f.(pw2 := v)
    case Name => f.(name := v)
    case Birthday => f.(birthday := v)
    case Email => f.(email := v)
    case Gender => f.(gender := v)
    case EcoState => f.(ecoState := v)
  }

  /** The reply to `POST /id_check`: a network error, or the parsed body (`success` when it is a boolean). */
  datatype IdReply = NetworkError | Reply(success: Option<bool>)

  /** What pressing join or confirming the join dialog does. */
  datatype SubmitOutcome = ShowProblem(problem: Problem) | AskIdCheck | AskConfirmJoin | Register(data: Member)

  class SignupPage {
    var form: Form
    /** The birthday input's `max`, set to today's ISO date when the page loads. */
    const max: string
    var idChecked: bool
    var idAvailable: bool
    var joinEnabled: bool
    var pwRule: RuleMsg
    var pwMatch: MatchMsg

    /** The join button always reflects the current form and id check. */
    predicate Valid()
      reads this
    {
      joinEnabled == JoinAllowed(form, max, idChecked, idAvailable)
    }

    constructor(today: string)
      ensures Valid() && max == today && !joinEnabled
      ensures form == Form("", "", "", "", "", "", "", "", "") && !idChecked && !idAvailable
    {
      form := Form("", "", "", "", "", "", "", "", "");
      max := today;
      idChecked, idAvailable := false, false;
      joinEnabled := false;
      pwRule, pwMatch := NoRuleMsg, NoMatchMsg;
    }

    /** updateJoinButtonState. */
    method UpdateJoin()
      modifies this
      ensures Valid()
      ensures form == old(form) && idChecked == old(idChecked) && idAvailable == old(idAvailable)
      ensures pwRule == old(pwRule) && pwMatch == old(pwMatch)
    {
      joinEnabled := ValidateFields(form, max).Accepted? && idChecked && idAvailable;
    }

    /** Typing in the id field resets the id check, so join is disabled until it is redone. */
    method InputId(v: string)
      modifies this
      ensures Valid() && form == old(form).(userId := v)
      ensures !idChecked && !idAvailable && !joinEnabled
    {
      form := form.(userId := v);
      idChecked, idAvailable := false, false;
      UpdateJoin();
    }

    /** Typing in the phone field keeps only its digits. */
    method InputPhone(v: string)
      modifies this
      ensures Valid() && form == old(form).(phone := DigitsOnly(v))
      ensures idChecked == old(idChecked) && idAvailable == old(idAvailable)
    {
      form := form.(phone := DigitsOnly(v));
      UpdateJoin();
    }

    /** Editing any other field; the two password fields also refresh the live messages. */
    method InputField(field: Field, v: string)
      modifies this
      ensures Valid() && form == WithField(old(form), field, v)
      ensures idChecked == old(idChecked) && idAvailable == old(idAvailable)
      ensures field in {Pw, Pw2} ==> pwRule == PwRuleMsg(JsTrim(form.pw)) && pwMatch == PwMatchMsg(JsTrim(form.pw), JsTrim(form.pw2))
      ensures field !in {Pw, Pw2} ==> pwRule == old(pwRule) && pwMatch == old(pwMatch)
    {
      form := WithField(form, field, v);
      if field == Pw || field == Pw2 {
        pwRule := PwRuleMsg(JsTrim(form.pw));
        pwMatch := PwMatchMsg(JsTrim(form.pw), JsTrim(form.pw2));
      }
      UpdateJoin();
    }

    /**
     * The duplicate-check button. With an empty trimmed id nothing is asked and the flags stay;
     * otherwise the flags record the reply: checked and available only on `success: true`.
     */
    method CheckId(reply: IdReply)
      modifies this
      ensures Valid() && form == old(form)
      ensures JsTrim(form.userId) == "" ==> idChecked == old(idChecked) && idAvailable == old(idAvailable)
      ensures JsTrim(form.userId) != "" ==> idChecked == reply.Reply? && idAvailable == (reply == Reply(Some(true)))
    {
      if JsTrim(form.userId) != "" {
        match reply {
          case NetworkError =>
            idChecked, idAvailable := false, false;
          case Reply(success) =>
            idChecked := true;
            idAvailable := success == Some(true);
        }
      }
      UpdateJoin();
    }

    /**
     * The form's submit handler and the confirmation button share these checks: validation
     * first, then the id check. Submitting opens the confirmation exactly when join is enabled,
     * and confirming sends exactly the validated data.
     */
    method Submit(confirming: bool) returns (r: SubmitOutcome)
      requires Valid()
      modifies this
      ensures Valid() && form == old(form) && idChecked == old(idChecked) && idAvailable == old(idAvailable)
      ensures (r.AskConfirmJoin? || r.Register?) <==> joinEnabled
      ensures r.AskConfirmJoin? ==> !confirming
      ensures r.Register? ==> confirming && ValidateFields(form, max) == Accepted(r.data)
      ensures r.ShowProblem? ==> ValidateFields(form, max) == Rejected(r.problem)
    {
      var v := ValidateFields(form, max);
      if v.Rejected? {
        UpdateJoin();
        return ShowProblem(v.problem);
      }
      if !idChecked || !idAvailable {
        return AskIdCheck;
      }
      r := if confirming then Register(v.data) else AskConfirmJoin;
    }
  }
}
