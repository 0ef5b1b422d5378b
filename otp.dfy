/**
 * The backend's one-time-code store: a map from phone to the last code sent
 * there. Sending replaces the phone's code; a successful check removes it.
 */
module OtpService {
  import opened JsText

  /** `Math.floor(100000 + Math.random() * 900000)` for a draw `d` of `Math.random()`. */
  function OtpNumber(d: real): (n: nat)
    requires 0.0 <= d < 1.0
    ensures 100000 <= n <= 999999
  {
    (100000.0 + d * 900000.0).Floor
  }

  /** The stored text `otp.toString()` is six digits. */
  lemma OtpTextIsSixDigits(d: real)
    requires 0.0 <= d < 1.0
    ensures |NatToString(OtpNumber(d))| == 6 && AllDigits(NatToString(OtpNumber(d)))
  {
    assert Pow10(5) == 100000 && Pow10(6) == 1000000;
    NatToStringLength(OtpNumber(d), 6);
  }

  /** The store after `sendOtp(phone)` with draw `d`. */
  function Sent(codes: map<string, string>, phone: string, d: real): map<string, string>
    requires 0.0 <= d < 1.0
  {
    codes[phone := NatToString(OtpNumber(d))]
  }

  /**
   * `verifyOtpCode(phone, otp)`: the answer and the store after it. A stored,
   * non-empty code equal to `otp` is accepted and removed; anything else is
   * refused and changes nothing.
   */
  function Verified(codes: map<string, string>, phone: string, otp: string): (r: (bool, map<string, string>))
    ensures r.0 <==> phone in codes && codes[phone] != "" && codes[phone] == otp
    ensures r.0 ==> r.1 == codes - {phone}
    ensures !r.0 ==> r.1 == codes
  {
    if phone in codes && codes[phone] != "" && codes[phone] == otp then (true, codes - {phone}) else (false, codes)
  }

  /** The code just sent is accepted once, which leaves the phone with no code. */
  lemma SendThenVerify(codes: map<string, string>, phone: string, d: real)
    requires 0.0 <= d < 1.0
    ensures Verified(Sent(codes, phone, d), phone, NatToString(OtpNumber(d))) == (true, codes - {phone})
  {
    assert Sent(codes, phone, d) - {phone} == codes - {phone};
  }

  /** Codes are single-use: right after a successful check, the same check fails. */
  lemma SingleUse(codes: map<string, string>, phone: string, otp: string)
    requires Verified(codes, phone, otp).0
    ensures !Verified(Verified(codes, phone, otp).1, phone, otp).0
  {
  }

  /** Sending again replaces the earlier code: only the latest is accepted. */
  lemma ResendReplaces(codes: map<string, string>, phone: string, d1: real, d2: real)
    requires 0.0 <= d1 < 1.0 && 0.0 <= d2 < 1.0
    ensures Sent(Sent(codes, phone, d1), phone, d2) == Sent(codes, phone, d2)
    ensures Verified(Sent(Sent(codes, phone, d1), phone, d2), phone, NatToString(OtpNumber(d1))).0
            <==> OtpNumber(d1) == OtpNumber(d2)
  {
    NatToStringRoundTrip(OtpNumber(d1));
    NatToStringRoundTrip(OtpNumber(d2));
  }

  /** Sending to or checking one phone leaves every other phone's entry as it was. */
  lemma OtherPhonesUntouched(codes: map<string, string>, phone: string, other: string, otp: string, d: real)
    requires 0.0 <= d < 1.0 && other != phone
    ensures (other in Sent(codes, phone, d)) == (other in codes)
    ensures other in codes ==> Sent(codes, phone, d)[other] == codes[other]
    ensures (other in Verified(codes, phone, otp).1) == (other in codes)
    ensures other in codes ==> Verified(codes, phone, otp).1[other] == codes[other]
  {
  }

  /** The module-level `otpStore` map and the two exported operations on it. */
  class OtpStore {
    var codes: map<string, string>

    /** Every stored code is a six-digit text. */
    ghost predicate Valid()
      reads this
    {
      forall p :: p in codes ==> |codes[p]| == 6 && AllDigits(codes[p])
    }

    constructor()
      ensures codes == map[] && Valid()
    {
      codes := map[];
    }

    /** `sendOtp(phone)`: stores a fresh code for the phone and answers true; the draw stands for `Math.random()`. */
    method SendOtp(phone: string, d: real) returns (ok: bool)
      requires 0.0 <= d < 1.0 && Valid()
      modifies this
      ensures ok && codes == Sent(old(codes), phone, d) && Valid()
    {
      OtpTextIsSixDigits(d);
      var otp := OtpNumber(d);
      codes := codes[phone := NatToString(otp)];
      ok := true;
    }

    /** `verifyOtpCode(phone, otp)`. */
    method VerifyOtpCode(phone: string, otp: string) returns (ok: bool)
      requires Valid()
      modifies this
      ensures (ok, codes) == Verified(old(codes), phone, otp) && Valid()
    {
      if phone in codes && codes[phone] != "" && codes[phone] == otp {
        codes := codes - {phone};
        return true;
      }
      return false;
    }
  }
}

/**
 * The mobile app's code-entry screen: six one-digit cells, a ten-minute
 * countdown that enables "Resend OTP" when it runs out, the masked address,
 * and the length check before the code is sent.
 */
module MobileOtp {
  import opened Wrappers
  import opened JsText
  import MobileLogin

  // ---------------------------------------------------------------- countdown text

  /** The seconds field: `${secs < 10 ? '0' : ''}${secs}`. */
  function SecondsField(secs: nat): string {
    (if secs < 10 then "0" else "") + NatToString(secs)
  }

  /** `formatTime(seconds)`: whole minutes, ':', and the seconds zero-padded to two digits. */
  function FormatTime(seconds: nat): string {
    NatToString(seconds / 60) + ":" + SecondsField(seconds % 60)
  }

  /** The seconds field of a remainder below 60 is two digits that read back as it. */
  lemma SecondsFieldReadsBack(secs: nat)
    requires secs < 60
    ensures var f := SecondsField(secs); |f| == 2 && AllDigits(f) && DigitsValue(f) == secs
  {
    NatToStringRoundTrip(secs);
    if secs < 10 {
      var f := SecondsField(secs);
      assert f == ['0', DigitChar(secs)];
      assert f[..1] == ['0'] && ['0'][..0] == [];
    } else {
      assert Pow10(1) == 10 && Pow10(2) == 100;
      NatToStringLength(secs, 2);
    }
  }

  /**
   * The text splits at its only ':' into the minutes and a two-digit seconds
   * field, and reading both back gives the seconds again.
   */
  lemma FormatTimeReadsBack(seconds: nat)
    ensures var r := FormatTime(seconds);
            var c := IndexOf(r, ':');
            && c < |r| && r[..c] == NatToString(seconds / 60)
            && |r[c + 1..]| == 2 && AllDigits(r[c + 1..])
            && DigitsValue(r[..c]) * 60 + DigitsValue(r[c + 1..]) == seconds
  {
    var m := NatToString(seconds / 60);
    var f := SecondsField(seconds % 60);
    var r := FormatTime(seconds);
    assert r == m + [':'] + f;
    forall i | 0 <= i < |m|
      ensures r[i] != ':'
    {
      assert r[i] == m[i];
    }
    assert r[|m|] == ':';
    assert IndexOf(r, ':') == |m|;
    assert r[..|m|] == m;
    assert r[|m| + 1..] == f;
    SecondsFieldReadsBack(seconds % 60);
    NatToStringRoundTrip(seconds / 60);
  }

  // ---------------------------------------------------------------- code cells

  /** `/^\d?$/`: empty, or a single digit. */
  predicate CellValue(v: string) {
    v == "" || (|v| == 1 && IsDigit(v[0]))
  }

  /** Six cells, each empty or one digit. */
  predicate CellsWellFormed(cells: seq<string>) {
    |cells| == 6 && forall i :: 0 <= i < 6 ==> CellValue(cells[i])
  }

  function BlankCells(): (r: seq<string>)
    ensures CellsWellFormed(r)
  {
    ["", "", "", "", "", ""]
  }

  /** The cells after an edit, and the code it submits, if any. */
  datatype OtpChange = OtpChange(cells: seq<string>, submitted: Option<string>)

  /**
   * `handleOtpChange(value, index)`: a value other than empty or one digit is
   * ignored; otherwise it goes into cell `index` alone, and an edit of the last
   * cell that leaves no cell empty submits the joined code.
   */
  function HandleOtpChange(cells: seq<string>, value: string, index: nat): (r: OtpChange)
    requires index < |cells|
    ensures !CellValue(value) ==> r == OtpChange(cells, None)
    ensures CellValue(value) ==> r.cells == cells[index := value]
    ensures r.submitted.Some? <==> CellValue(value) && index == 5 && forall i :: 0 <= i < |r.cells| ==> r.cells[i] != ""
    ensures r.submitted.Some? ==> r.submitted.value == Join(r.cells)
  {
    if !CellValue(value) then OtpChange(cells, None)
    else
      var newOtp := cells[index := value];
      if (forall i :: 0 <= i < |newOtp| ==> newOtp[i] != "") && index == 5 then OtpChange(newOtp, Some(Join(newOtp)))
      else OtpChange(newOtp, None)
  }

  /** Joined well-formed cells are digits, one per filled cell. */
  lemma {:induction false} JoinDigits(cells: seq<string>)
    requires forall i :: 0 <= i < |cells| ==> CellValue(cells[i])
    ensures AllDigits(Join(cells))
    decreases |cells|
  {
    if cells != [] {
      JoinDigits(cells[..|cells| - 1]);
    }
  }

  /**
   * Edits keep the cells well formed, and an automatic submission is always a
   * six-digit code, so it passes the verify step's length check.
   */
  lemma OtpChangeKeepsCells(cells: seq<string>, value: string, index: nat)
    requires CellsWellFormed(cells) && index < 6
    ensures CellsWellFormed(HandleOtpChange(cells, value, index).cells)
    ensures var r := HandleOtpChange(cells, value, index);
            r.submitted.Some? ==> |r.submitted.value| == 6 && AllDigits(r.submitted.value)
  {
    var r := HandleOtpChange(cells, value, index);
    JoinLength(r.cells);
    JoinDigits(r.cells);
  }

  /** `autoFillOTP`: a six-character demo code fills the cells one character each; anything else changes nothing. */
  function AutoFill(cells: seq<string>, debugOtp: Option<string>): (r: seq<string>)
    ensures debugOtp.Some? && |debugOtp.value| == 6 ==> r == Split(debugOtp.value)
    ensures !(debugOtp.Some? && |debugOtp.value| == 6) ==> r == cells
  {
    if debugOtp.Some? && debugOtp.value != "" && |debugOtp.value| == 6 then Split(debugOtp.value) else cells
  }

  /** Auto-filled cells join back to the demo code, which then passes the length check. */
  lemma AutoFillJoinsBack(cells: seq<string>, code: string)
    requires |code| == 6
    ensures Join(AutoFill(cells, Some(code))) == code
    ensures VerifyOtp(Join(AutoFill(cells, Some(code))), "", true).Ok?
  {
    JoinSplit(code);
  }

  // ---------------------------------------------------------------- verify

  datatype Endpoint = VerifySignup | VerifyLogin

  datatype VerifyRequest = VerifyRequest(endpoint: Endpoint, email: string, otp: string)

  datatype VerifyError = NotSixDigits

  /** `handleVerifyOTP`: a code whose length is not 6 is refused; otherwise it is sent with the lower-cased address. */
  function VerifyOtp(entered: string, email: string, signup: bool): (r: Result<VerifyRequest, VerifyError>)
    ensures r.Err? <==> |entered| != 6
    ensures r.Ok? ==> r.value.otp == entered && r.value.email == Lower(email)
                      && (r.value.endpoint == VerifySignup <==> signup)
  {
    if |entered| != 6 then Err(NotSixDigits)
    else Ok(VerifyRequest(if signup then VerifySignup else VerifyLogin, Lower(email), entered))
  }

  /** The Verify button: enabled while not loading and the joined cells have six characters. */
  predicate VerifyEnabled(cells: seq<string>, loading: bool) {
    !loading && |Join(cells)| == 6
  }

  /** With well-formed cells, the button is enabled exactly when every cell holds a digit. */
  lemma VerifyEnabledIffFilled(cells: seq<string>)
    requires CellsWellFormed(cells)
    ensures VerifyEnabled(cells, false) <==> forall i :: 0 <= i < 6 ==> cells[i] != ""
  {
    JoinLength(cells);
  }

  // ---------------------------------------------------------------- masked address

  /** The local part's mask: the first three characters of a part longer than three are kept, the rest become '*'. */
  function MaskLocal(local: string): (r: string)
    ensures |r| == |local|
    ensures forall i :: 0 <= i < |r| ==> r[i] == (if |local| > 3 && i < 3 then local[i] else '*')
  {
    if |local| > 3 then local[..3] + Repeat('*', |local| - 3) else Repeat('*', |local|)
  }

  /**
   * `maskedEmail()`: `email.split('@')` gives the local part and the text up
   * to a second '@' (or `undefined` when there is no '@'); the local part is
   * masked.
   */
  function MaskedEmail(email: string): (r: string)
    ensures IndexOf(email, '@') == |email| ==> |r| == |email| + 10 && r[|email|..] == "@undefined"
  {
    var at := IndexOf(email, '@');
    var domain := if at < |email| then email[at + 1..][..IndexOf(email[at + 1..], '@')] else "undefined";
    MaskLocal(email[..at]) + "@" + domain
  }

  /**
   * For an address with one '@', masking keeps the length, the '@' and the
   * domain, keeps the first three characters of a local part longer than three
   * and stars every other local character.
   */
  lemma MaskedEmailShape(email: string)
    requires IndexOf(email, '@') < |email|
    requires forall j :: 0 <= j < |email| && email[j] == '@' ==> j == IndexOf(email, '@')
    ensures var r := MaskedEmail(email);
            var at := IndexOf(email, '@');
            && |r| == |email| && r[at..] == email[at..]
            && forall i :: 0 <= i < at ==> r[i] == (if at > 3 && i < 3 then email[i] else '*')
  {
    NoSecondAt(email, IndexOf(email, '@'));
    MaskedEmailSplit(email, IndexOf(email, '@'));
  }

  /** The shape of the mask, once the domain is known to run to the end of the address. */
  lemma MaskedEmailSplit(email: string, at: nat)
    requires at == IndexOf(email, '@') < |email|
    requires IndexOf(email[at + 1..], '@') == |email| - at - 1
    ensures var r := MaskedEmail(email);
            && |r| == |email| && r[at..] == email[at..]
            && forall i :: 0 <= i < at ==> r[i] == (if at > 3 && i < 3 then email[i] else '*')
  {
    var rest := email[at + 1..];
    assert rest[..IndexOf(rest, '@')] == rest;
    var local := email[..at];
    var m := MaskLocal(local);
    var r := MaskedEmail(email);
    assert r == m + ("@" + rest);
    assert |m| == at;
    assert r[at..] == "@" + rest == email[at..];
    forall i | 0 <= i < at
      ensures r[i] == (if at > 3 && i < 3 then email[i] else '*')
    {
      assert r[i] == m[i] && local[i] == email[i];
    }
  }

  /** Past its only '@', an address has no '@' left. */
  lemma NoSecondAt(email: string, at: nat)
    requires at == IndexOf(email, '@') < |email|
    requires forall j :: 0 <= j < |email| && email[j] == '@' ==> j == at
    ensures IndexOf(email[at + 1..], '@') == |email| - at - 1
  {
  }

  /** Every address sign-up accepts has one '@', so its mask has the shape above. */
  lemma MaskedValidatedEmail(email: string)
    requires MobileLogin.EmailPattern(email)
    ensures var r := MaskedEmail(email);
            var at := IndexOf(email, '@');
            && |r| == |email| && r[at..] == email[at..]
            && forall i :: 0 <= i < at ==> r[i] == (if at > 3 && i < 3 then email[i] else '*')
  {
    MobileLogin.EmailHasOneAt(email);
    MaskedEmailShape(email);
  }

  // ---------------------------------------------------------------- countdown

  /** The countdown: seconds left, whether "Resend OTP" is enabled, and whether the one-second interval still runs. */
  datatype Timer = Timer(timeLeft: nat, canResend: bool, running: bool)

  const CodeLifetime: nat := 600

  /** The screen opens with ten minutes on a running interval and resending disabled. */
  function InitialTimer(): Timer {
    Timer(CodeLifetime, false, true)
  }

  /** Resending is enabled only once the interval has stopped at zero. */
  predicate TimerInvariant(t: Timer) {
    t.canResend ==> !t.running && t.timeLeft == 0
  }

  /**
   * One interval tick: nothing once the interval is cleared; at one second or
   * less it clears itself, enables resending and shows zero; otherwise one
   * second less.
   */
  function Tick(t: Timer): (r: Timer)
    ensures TimerInvariant(t) ==> TimerInvariant(r)
    ensures t.running && t.timeLeft > 1 ==> r == t.(timeLeft := t.timeLeft - 1)
    ensures t.running && t.timeLeft <= 1 ==> r == Timer(0, true, false)
    ensures !t.running ==> r == t
  {
    if !t.running then t
    else if t.timeLeft <= 1 then Timer(0, true, false)
    else t.(timeLeft := t.timeLeft - 1)
  }

  /** `n` ticks in a row. */
  function Ticks(t: Timer, n: nat): Timer
    decreases n
  {
    if n == 0 then t else Ticks(Tick(t), n - 1)
  }

  /** A running countdown at `k` seconds enables resending after `k` ticks and not before. */
  lemma {:induction false} CountdownRunsOut(t: Timer, n: nat)
    requires t.running && 1 <= t.timeLeft
    ensures n < t.timeLeft ==> Ticks(t, n) == t.(timeLeft := t.timeLeft - n)
    ensures n >= t.timeLeft ==> Ticks(t, n) == Timer(0, true, false)
    decreases n
  {
    if n > 0 {
      if t.timeLeft > 1 {
        CountdownRunsOut(Tick(t), n - 1);
      } else {
        StoppedStays(Timer(0, true, false), n - 1);
      }
    }
  }

  /** A stopped countdown stays as it is. */
  lemma {:induction false} StoppedStays(t: Timer, n: nat)
    requires !t.running
    ensures Ticks(t, n) == t
    decreases n
  {
    if n > 0 {
      StoppedStays(Tick(t), n - 1);
    }
  }

  /** The first code: resending becomes possible after exactly ten minutes, showing "0:00". */
  lemma FirstCountdown()
    ensures !Ticks(InitialTimer(), CodeLifetime - 1).canResend
    ensures Ticks(InitialTimer(), CodeLifetime) == Timer(0, true, false)
  {
    CountdownRunsOut(InitialTimer(), CodeLifetime - 1);
    CountdownRunsOut(InitialTimer(), CodeLifetime);
  }

  /**
   * The timer side of a successful `handleResendOTP` as written: ten minutes
   * on the clock and resending disabled, but the interval, cleared when the
   * first countdown ran out, is not started again.
   */
  function ResendAsWritten(t: Timer): Timer {
    t.(timeLeft := CodeLifetime, canResend := false)
  }

  /**
   * As written, a resend leaves the countdown frozen at ten minutes: no number
   * of ticks moves it, so "Resend OTP" never becomes enabled again.
   */
  lemma ResendFreezesCountdown(t: Timer, n: nat)
    requires TimerInvariant(t) && t.canResend
    ensures Ticks(ResendAsWritten(t), n) == Timer(CodeLifetime, false, false)
    ensures forall loading :: !ResendEnabled(Ticks(ResendAsWritten(t), n), loading)
  {
    StoppedStays(ResendAsWritten(t), n);
  }

  /** The resend as intended: ten minutes on a restarted interval. */
  function Resend(t: Timer): (r: Timer)
    ensures TimerInvariant(r) && r.running && !r.canResend && r.timeLeft == CodeLifetime
  {
    Timer(CodeLifetime, false, true)
  }

  /** After the intended resend, resending is enabled again exactly when the new countdown runs out. */
  lemma ResendRestartsCountdown(t: Timer)
    ensures !Ticks(Resend(t), CodeLifetime - 1).canResend
    ensures Ticks(Resend(t), CodeLifetime) == Timer(0, true, false)
  {
    CountdownRunsOut(Resend(t), CodeLifetime - 1);
    CountdownRunsOut(Resend(t), CodeLifetime);
  }

  /** The "Resend OTP" button: enabled while resending is allowed and nothing is loading. */
  predicate ResendEnabled(t: Timer, loading: bool) {
    t.canResend && !loading
  }
}

/**
 * The older app's code screen: the entered code must have four characters and
 * equal the one generated on the log-in screen; a match stores the new user as
 * the current one and appends it to the device's user list.
 */
module LegacyOtp {
  import opened Wrappers
  import opened JsText
  import LegacyLogin

  datatype User = User(id: string, name: string, phone: string, createdAt: int)

  datatype OtpDecision = WrongLength | Mismatch | Match

  /** The two checks of `handleVerifyOTP`, the length first. */
  function Decide(entered: string, otp: string): (d: OtpDecision)
    ensures d == WrongLength <==> |entered| != 4
    ensures d == Match <==> |entered| == 4 && entered == otp
  {
    if |entered| != 4 then WrongLength
    else if entered == otp then Match
    else Mismatch
  }

  /** Typing back the code the log-in screen generated is always a match. */
  lemma GeneratedOtpMatches(name: string, phone: string, d: real)
    requires 0.0 <= d < 1.0
    requires LegacyLogin.HandleGenerateOtp(name, phone, d).Ok?
    ensures var route := LegacyLogin.HandleGenerateOtp(name, phone, d).value;
            Decide(route.otp, route.otp) == Match
  {
    LegacyLogin.GeneratedOtpHasFourDigits(d);
  }

  /** The device's key-value storage: the `currentUser` entry and the `users` list, either possibly absent. */
  class DeviceStorage {
    var currentUser: Option<User>
    var users: Option<seq<User>>

    constructor()
      ensures currentUser.None? && users.None?
    {
      currentUser := None;
      users := None;
    }

    /**
     * `handleVerifyOTP`: on a match, a user with the given name and phone
     * (the id from the clock reading `idAt`, the creation time from a second
     * reading `createdAt`) becomes the current
     * user and is appended to the stored list, which starts empty when absent;
     * otherwise nothing is written.
     */
    method HandleVerifyOtp(entered: string, otp: string, name: string, phone: string, idAt: nat, createdAt: nat)
      returns (d: OtpDecision)
      modifies this
      ensures d == Decide(entered, otp)
      ensures d != Match ==> currentUser == old(currentUser) && users == old(users)
      ensures d == Match ==>
                && currentUser == Some(User(NatToString(idAt), name, phone, createdAt))
                && users == Some(old(users).GetOr([]) + [currentUser.value])
    {
      d := Decide(entered, otp);
      if d == Match {
        var user := User(NatToString(idAt), name, phone, createdAt);
        currentUser := Some(user);
        var list := if users.Some? then users.value else [];
        list := list + [user];
        users := Some(list);
      }
    }
  }
}
