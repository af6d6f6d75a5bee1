/**
 * The member-information edit page, in its two versions (html/info_edit.js and
 * test_html/apps/service/static/info_edit.js): the password-pair check that enables the save
 * button, the payload that always carries a password pair, where closing the success dialog
 * leads, and (in the service version) the in-page password verification.
 */
module InfoEdit {
  import opened Text
  import Signup

  /** The two versions of the page. */
  datatype Variant = StaticHtml | ServiceApp

  /** The four states of the new-password pair, on trimmed values. */
  datatype PairState = Unchanged | Incomplete | Different | Same

  /**
   * validatePasswordMatch: both empty (no change) or equal passes; exactly one empty or two
   * different values fail. The save button is enabled exactly when it passes.
   */
  function PairOf(pw: string, confirm: string): (r: PairState)
    ensures r == Unchanged <==> JsTrim(pw) == "" && JsTrim(confirm) == ""
    ensures r == Same <==> JsTrim(pw) != "" && JsTrim(pw) == JsTrim(confirm)
    ensures r == Incomplete <==> (JsTrim(pw) == "") != (JsTrim(confirm) == "")
  {
    var p, c := JsTrim(pw), JsTrim(confirm);
    if p == "" && c == "" then Unchanged
    else if p == "" || c == "" then Incomplete
    else if p != c then Different
    else Same
  }

  predicate PairPasses(s: PairState) { s == Unchanged || s == Same }

  /** The check passes exactly when the trimmed values are equal. */
  lemma PairPassesIffEqual(pw: string, confirm: string)
    ensures PairPasses(PairOf(pw, confirm)) <==> JsTrim(pw) == JsTrim(confirm)
  {
  }

  /** The edit page and the sign-up page's live message agree on which pairs are good. */
  lemma SameRuleAsSignup(pw: string, confirm: string)
    ensures PairPasses(PairOf(pw, confirm)) <==> Signup.MatchOk(Signup.PwMatchMsg(JsTrim(pw), JsTrim(confirm)))
  {
  }

  /** The profile fields read from the form, as buildPayload trims them (the birthday is not trimmed). */
  datatype Profile = Profile(email: string, name: string, birthday: string, phone: string, ecoState: string, gender: string)

  datatype Payload = Payload(profile: Profile, pw: string, pwConfirm: string)

  function TrimmedProfile(p: Profile): Profile {
    p.(email := JsTrim(p.email), name := JsTrim(p.name), phone := JsTrim(p.phone))
  }

  /** `isLikelyHtml`: `/<!doctype html>|<html/i` (the pattern is ASCII, so the case folding is ASCII). */
  predicate IsLikelyHtml(text: string) {
    Contains(LowerAscii(text), "<!doctype html>") || Contains(LowerAscii(text), "<html")
  }

  /** Where the page sends the browser. */
  datatype Destination = Stay | MyPage | Logout | LoginPage

  /** What a submit does. */
  datatype SubmitOutcome =
    | PairRejected                 // the pair check fails: focus moves to the confirmation
    | NeedsVerification            // no new password and no verified one stored
    | SaveFailed(message: string)  // the server answered `success: false` or the request failed
    | SavedDialog(changed: bool)   // the success dialog, whose text says whether the password changed

  /** The server's answer to `/info_update`. */
  datatype UpdateReply = UpdateOk | UpdateRefused(message: string) | RequestFailed(message: string)

  /** The service version's `/mypage/password_check` answer, as the handler reads it. */
  datatype VerifyReply = VerifyFailed | VerifyAnswer(jsonSaysFailure: bool, finalUrl: string, body: string)

  class InfoEditPage {
    const variant: Variant
    var pw: string
    var confirm: string
    var reviseEnabled: bool
    var passwordChanged: bool
    /** sessionStorage `verifiedPw`. */
    var verifiedPw: Option<string>
    var destination: Destination

    constructor(variant: Variant, verifiedPw: Option<string>)
      ensures this.variant == variant && this.verifiedPw == verifiedPw
      ensures pw == "" && confirm == "" && !reviseEnabled && !passwordChanged && destination == Stay
    {
      this.variant := variant;
      this.verifiedPw := verifiedPw;
      pw, confirm := "", "";
      reviseEnabled, passwordChanged := false, false;
      destination := Stay;
    }

    /** Typing in either password field re-runs the check and sets the button from it. */
    method InputPair(newPw: string, newConfirm: string)
      modifies this
      ensures pw == newPw && confirm == newConfirm
      ensures reviseEnabled == PairPasses(PairOf(newPw, newConfirm))
      ensures passwordChanged == old(passwordChanged) && verifiedPw == old(verifiedPw) && destination == old(destination)
    {
      pw, confirm := newPw, newConfirm;
      reviseEnabled := PairPasses(PairOf(pw, confirm));
    }

    /**
     * buildPayload: with both new-password fields empty the stored verified password fills
     * both password fields (an error when none is stored) and the change flag is cleared;
     * otherwise the new pair is sent and the flag is set.
     */
    method BuildPayload(profile: Profile) returns (r: Option<Payload>)
      modifies this
      ensures pw == old(pw) && confirm == old(confirm) && verifiedPw == old(verifiedPw)
      ensures reviseEnabled == old(reviseEnabled) && destination == old(destination)
      ensures JsTrim(pw) == "" && JsTrim(confirm) == "" ==>
        (r.Some? <==> verifiedPw.Some? && verifiedPw.value != "")
        && (r.Some? ==> r.value == Payload(TrimmedProfile(profile), verifiedPw.value, verifiedPw.value) && !passwordChanged)
        && (r.None? ==> passwordChanged == old(passwordChanged))
      ensures !(JsTrim(pw) == "" && JsTrim(confirm) == "") ==>
        r == Some(Payload(TrimmedProfile(profile), JsTrim(pw), JsTrim(confirm))) && passwordChanged
    {
      var p, c := JsTrim(pw), JsTrim(confirm);
      if p == "" && c == "" {
        if verifiedPw.None? || verifiedPw.value == "" {
          return None;
        }
        passwordChanged := false;
        return Some(Payload(TrimmedProfile(profile), verifiedPw.value, verifiedPw.value));
      }
      passwordChanged := true;
      r := Some(Payload(TrimmedProfile(profile), p, c));
    }

    /**
     * The form's submit handler with the server's reply. A failing pair check sends nothing;
     * a missing verified password sends nothing and, in the static version, returns to the
     * my-page screen (the service version opens its verification dialog instead). A request
     * that is sent always carries a password pair that passes the check. Whatever the reply,
     * the pair check then runs again (`.always`), so the save button ends as that check says.
     */
    method Submit(profile: Profile, reply: UpdateReply) returns (r: SubmitOutcome, sent: Option<Payload>)
      modifies this
      ensures !PairPasses(PairOf(old(pw), old(confirm))) ==> r == PairRejected && sent == None
      ensures sent.Some? ==> sent.value.pw == sent.value.pwConfirm && sent.value.pw != ""
      ensures r.NeedsVerification? ==> sent == None && destination == (if variant == StaticHtml then MyPage else old(destination))
      ensures r.SavedDialog? ==> sent.Some? && reply == UpdateOk && r.changed == passwordChanged
      ensures r.SavedDialog? ==> (passwordChanged <==> JsTrim(pw) != "") && destination == old(destination)
      ensures r.SaveFailed? ==> sent.Some? && !reply.UpdateOk?
      ensures r.SaveFailed? ==>
        r.message == (if reply.UpdateRefused? && reply.message == "" then "\U{C800}\U{C7A5} \U{C2E4}\U{D328}" else reply.message)
      ensures r.SaveFailed? ==>
        destination == (if variant == StaticHtml && reply.RequestFailed? && Contains(reply.message, "\U{BE44}\U{BC00}\U{BC88}\U{D638} \U{D655}\U{C778}") then MyPage else old(destination))
      ensures reviseEnabled == PairPasses(PairOf(old(pw), old(confirm)))
      ensures pw == old(pw) && confirm == old(confirm) && verifiedPw == old(verifiedPw)
    {
      var pair := PairOf(pw, confirm);
      reviseEnabled := PairPasses(pair);
      if !PairPasses(pair) {
        return PairRejected, None;
      }
      sent := BuildPayload(profile);
      if sent.None? {
        if variant == StaticHtml {
          destination := MyPage;
        }
        return NeedsVerification, None;
      }
      match reply {
        case UpdateOk =>
          r := SavedDialog(passwordChanged);
        case UpdateRefused(message) =>
          r := SaveFailed(if message == "" then "\U{C800}\U{C7A5} \U{C2E4}\U{D328}" else message);
          reviseEnabled := false;
        case RequestFailed(message) =>
          r := SaveFailed(message);
          if variant == StaticHtml && Contains(message, "\U{BE44}\U{BC00}\U{BC88}\U{D638} \U{D655}\U{C778}") {
            destination := MyPage;
          }
      }
      reviseEnabled := PairPasses(PairOf(pw, confirm));
    }

    /**
     * closeUpdateModal: after a password change the stored verified password is removed and
     * the static version logs out; the service version returns to the my-page screen either way.
     */
    method CloseUpdateModal()
      modifies this
      ensures passwordChanged ==> verifiedPw == None
      ensures !passwordChanged ==> verifiedPw == old(verifiedPw)
      ensures destination == (if passwordChanged && variant == StaticHtml then Logout else MyPage)
      ensures pw == old(pw) && confirm == old(confirm) && passwordChanged == old(passwordChanged)
    {
      if passwordChanged {
        verifiedPw := None;
        destination := if variant == StaticHtml then Logout else MyPage;
        return;
      }
      destination := MyPage;
    }

    /**
     * The service version's verification dialog: an empty trimmed password is not sent; a JSON
     * body whose `success` is false fails; otherwise the check succeeds when the final URL is the
     * edit page or the body looks like HTML, and only then is the password stored.
     */
    method ConfirmVerification(input: string, reply: VerifyReply) returns (ok: bool)
      requires variant == ServiceApp
      modifies this
      ensures ok <==> (JsTrim(input) != "" && reply.VerifyAnswer? && !reply.jsonSaysFailure
        && (Contains(reply.finalUrl, "/view/info_edit.html") || IsLikelyHtml(reply.body)))
      ensures ok ==> verifiedPw == Some(JsTrim(input))
      ensures !ok ==> verifiedPw == old(verifiedPw)
      ensures pw == old(pw) && confirm == old(confirm) && passwordChanged == old(passwordChanged)
    {
      var p := JsTrim(input);
      if p == "" {
        return false;
      }
      match reply {
        case VerifyFailed =>
          ok := false;
        case VerifyAnswer(jsonSaysFailure, finalUrl, body) =>
          if jsonSaysFailure {
            return false;
          }
          ok := Contains(finalUrl, "/view/info_edit.html") || IsLikelyHtml(body);
          if ok {
            verifiedPw := Some(p);
          }
      }
    }
  }
}
