/**
 * The mobile app's sign-up and log-in form: the phone and email checks, the
 * order they run in, and the normalised request sent to the backend.
 */
module MobileLogin {
  import opened Wrappers
  import opened JsText
  import opened JsNumber

  /** `/^\d+$/`: one or more ASCII digits and nothing else. */
  predicate DigitsOnly(s: string) {
    |s| >= 1 && AllDigits(s)
  }

  /** `validatePhone`: exactly ten characters, all digits. */
  predicate ValidatePhone(phone: string) {
    |phone| == 10 && DigitsOnly(phone)
  }

  /** `[^\s@]`: neither white space nor '@'. */
  predicate IsEmailChar(c: char) {
    !IsSpace(c) && c != '@'
  }

  predicate AllEmailChars(s: string) {
    forall i :: 0 <= i < |s| ==> IsEmailChar(s[i])
  }

  /**
   * What `^[^\s@]+@[^\s@]+\.[^\s@]+$` matches: a non-empty local part, '@',
   * and a domain with a '.' that is neither its first nor its last character;
   * no white space and no other '@'.
   */
  ghost predicate EmailPattern(e: string) {
    exists i, k :: 0 < i && i + 1 < k < |e| - 1 && e[i] == '@' && e[k] == '.'
                   && AllEmailChars(e[..i]) && AllEmailChars(e[i + 1..])
  }

  /** `validateEmail`, reading the text once: split at the first '@', then look for an inner '.'. */
  function ValidateEmail(email: string): bool {
    var at := IndexOf(email, '@');
    0 < at < |email| && AllEmailChars(email[..at]) && AllEmailChars(email[at + 1..])
    && at + 3 < |email| && '.' in email[at + 2..|email| - 1]
  }

  /** No local-part character is '@', so an '@' after a run of them is the first one. */
  lemma FirstAtAfterLocal(email: string, i: nat)
    requires i < |email| && email[i] == '@' && AllEmailChars(email[..i])
    ensures IndexOf(email, '@') == i
  {
  }

  /** The check accepts exactly the addresses the pattern matches. */
  lemma ValidateEmailMatchesPattern(email: string)
    ensures ValidateEmail(email) <==> EmailPattern(email)
  {
    if ValidateEmail(email) {
      ValidEmailMatches(email);
    }
    if EmailPattern(email) {
      PatternValidates(email);
    }
  }

  /** A match of the pattern passes the check: its '@' is the first one. */
  lemma PatternValidates(email: string)
    requires EmailPattern(email)
    ensures ValidateEmail(email)
  {
    var i, k :| 0 < i && i + 1 < k < |email| - 1 && email[i] == '@' && email[k] == '.'
                && AllEmailChars(email[..i]) && AllEmailChars(email[i + 1..]);
    FirstAtAfterLocal(email, i);
    assert email[i + 2..|email| - 1][k - i - 2] == '.';
  }

  /** The split the check finds is a match of the pattern. */
  lemma ValidEmailMatches(email: string)
    requires ValidateEmail(email)
    ensures EmailPattern(email)
  {
    var at := IndexOf(email, '@');
    var inner := email[at + 2..|email| - 1];
    var j :| 0 <= j < |inner| && inner[j] == '.';
    assert email[at + 2 + j] == '.';
    assert email[at] == '@';
  }

  /** A matching address has exactly one '@'. */
  lemma EmailHasOneAt(email: string)
    requires EmailPattern(email)
    ensures var at := IndexOf(email, '@');
            at < |email| && forall j :: 0 <= j < |email| && email[j] == '@' ==> j == at
  {
    ValidateEmailMatchesPattern(email);
    var at := IndexOf(email, '@');
    forall j | 0 <= j < |email| && email[j] == '@'
      ensures j == at
    {
    }
  }

  /** Lower-casing keeps an address matching: it changes only ASCII capitals. */
  lemma LowerKeepsEmailPattern(email: string)
    requires EmailPattern(email)
    ensures EmailPattern(Lower(email))
  {
    var i, k :| 0 < i && i + 1 < k < |email| - 1 && email[i] == '@' && email[k] == '.'
                && AllEmailChars(email[..i]) && AllEmailChars(email[i + 1..]);
    var l := Lower(email);
    assert l[i] == '@' && l[k] == '.';
    forall j | 0 <= j < i
      ensures IsEmailChar(l[..i][j])
    {
      assert email[..i][j] == email[j];
    }
    forall j | i + 1 <= j < |l|
      ensures IsEmailChar(l[j])
    {
      assert email[i + 1..][j - i - 1] == email[j];
    }
    assert AllEmailChars(l[i + 1..]);
  }

  /** A matching address has no white space at either end, so `trim` leaves it alone. */
  lemma TrimKeepsEmail(email: string)
    requires EmailPattern(email)
    ensures Trim(email) == email
  {
    var i, k :| 0 < i && i + 1 < k < |email| - 1 && email[i] == '@' && email[k] == '.'
                && AllEmailChars(email[..i]) && AllEmailChars(email[i + 1..]);
    assert email[..i][0] == email[0];
    assert email[i + 1..][|email| - i - 2] == email[|email| - 1];
    TrimUnspaced(email);
  }

  datatype LoginError = NameRequired | InvalidPhone | InvalidEmail

  datatype SignupRequest = SignupRequest(name: string, phone: string, email: string)

  /**
   * `handleSignup`: the name, then the phone, then the email, stopping at the
   * first failure. The request carries the trimmed name and phone and the
   * trimmed, lower-cased email.
   */
  function HandleSignup(name: string, phone: string, email: string): (r: Result<SignupRequest, LoginError>)
    ensures r == Err(NameRequired) <==> Trim(name) == []
    ensures r == Err(InvalidPhone) <==> Trim(name) != [] && !ValidatePhone(phone)
    ensures r == Err(InvalidEmail) <==> Trim(name) != [] && ValidatePhone(phone) && !EmailPattern(email)
    ensures r.Ok? ==> r.value == SignupRequest(Trim(name), Trim(phone), Lower(Trim(email)))
  {
    ValidateEmailMatchesPattern(email);
    if Trim(name) == [] then Err(NameRequired)
    else if !ValidatePhone(phone) then Err(InvalidPhone)
    else if !ValidateEmail(email) then Err(InvalidEmail)
    else Ok(SignupRequest(Trim(name), Trim(phone), Lower(Trim(email))))
  }

  /** A sign-up request carries the phone exactly as typed and a lower-case address that still validates. */
  lemma SignupRequestValid(name: string, phone: string, email: string)
    requires HandleSignup(name, phone, email).Ok?
    ensures var req := HandleSignup(name, phone, email).value;
            req.phone == phone && ValidatePhone(req.phone) && req.email == Lower(email) && EmailPattern(req.email)
            && req.name != []
  {
    assert Trim(name) != [] && ValidatePhone(phone) && EmailPattern(email);
    TrimDigits(phone);
    TrimKeepsEmail(email);
    LowerKeepsEmailPattern(email);
  }

  datatype LoginRequest = LoginRequest(name: string, phone: string)

  /** `handleLogin`: only the name and then the phone are checked; no email is asked for. */
  function HandleLogin(name: string, phone: string): (r: Result<LoginRequest, LoginError>)
    ensures r == Err(NameRequired) <==> Trim(name) == []
    ensures r == Err(InvalidPhone) <==> Trim(name) != [] && !ValidatePhone(phone)
    ensures r != Err(InvalidEmail)
    ensures r.Ok? ==> r.value == LoginRequest(Trim(name), Trim(phone))
  {
    if Trim(name) == [] then Err(NameRequired)
    else if !ValidatePhone(phone) then Err(InvalidPhone)
    else Ok(LoginRequest(Trim(name), Trim(phone)))
  }

  /** Log-in accepts every name and phone sign-up accepts, whatever the address. */
  lemma LoginAcceptsWhatSignupAccepts(name: string, phone: string, email: string)
    requires HandleSignup(name, phone, email).Ok?
    ensures HandleLogin(name, phone) == Ok(LoginRequest(HandleSignup(name, phone, email).value.name,
                                                        HandleSignup(name, phone, email).value.phone))
  {
  }
}

/**
 * The older app's single-file log-in flow (`AuthFlow`): a number screen with a
 * country picker, a four-cell code screen checked against a fixed code, and a
 * success screen. Each handler's delay is taken as elapsed.
 */
module AuthFlow {
  import opened Wrappers
  import opened JsText
  import opened Ledger

  datatype Country = Country(flag: string, code: string, name: string)

  datatype AuthScreen = MobileInput | OtpVerification | Success

  datatype AuthState = AuthState(
    screen: AuthScreen,
    mobileNumber: string,
    country: Country,
    pickerVisible: bool,
    otpCode: seq<string>,
    loading: bool,
    error: Option<string>)

  const InvalidMobileError := "Enter a valid 10-digit mobile number!"
  const InvalidCodeError := "Invalid verification code. Try again!"
  const FixedCode := "1234"

  function BlankCells(): seq<string> {
    ["", "", "", ""]
  }

  /** The number field's `onChangeText`: digits only, at most ten of them. */
  function CleanPhone(text: string): (r: string)
    ensures |r| <= 10 && |r| <= |KeepDigits(text)| && AllDigits(r)
    ensures r == KeepDigits(text)[..|r|]
    ensures |KeepDigits(text)| <= 10 ==> r == KeepDigits(text)
  {
    Take(KeepDigits(text), 10)
  }

  /** Cleaning what is already clean changes nothing. */
  lemma CleanPhoneIdempotent(text: string)
    ensures CleanPhone(CleanPhone(text)) == CleanPhone(text)
  {
  }

  /** Typing in the number field stores the cleaned text and clears the error. */
  function TypeNumber(s: AuthState, text: string): (r: AuthState)
    ensures r == s.(mobileNumber := CleanPhone(text), error := None)
  {
    s.(mobileNumber := CleanPhone(text), error := None)
  }

  /** `/^\d{10}$/`. */
  predicate TenDigits(s: string) {
    |s| == 10 && AllDigits(s)
  }

  /** `handleMobileInput`, once its delay has run: ten digits move on to the code screen, anything else sets the error. */
  function HandleMobileInput(s: AuthState): (r: AuthState)
    ensures TenDigits(s.mobileNumber) ==> r == s.(error := None, screen := OtpVerification, loading := false)
    ensures !TenDigits(s.mobileNumber) ==> r == s.(error := Some(InvalidMobileError))
  {
    if !TenDigits(s.mobileNumber) then s.(error := Some(InvalidMobileError))
    else s.(error := None, screen := OtpVerification, loading := false)
  }

  /** The Verify button is enabled while not loading and the number has ten characters. */
  predicate VerifyEnabled(s: AuthState) {
    !s.loading && |s.mobileNumber| == 10
  }

  /**
   * After any typing, the Verify button is enabled exactly when pressing it
   * moves on: cleaning leaves only digits, so the length test is the whole check.
   */
  lemma VerifyEnabledIffAccepted(s: AuthState, text: string)
    requires !s.loading
    ensures var t := TypeNumber(s, text);
            VerifyEnabled(t) <==> HandleMobileInput(t).screen == OtpVerification && HandleMobileInput(t).error.None?
  {
  }

  /** `handleOtpInput`: a value longer than one character is ignored; otherwise its digits go into cell `index`. */
  function HandleOtpInput(s: AuthState, index: nat, value: string): (r: AuthState)
    requires index < |s.otpCode|
    ensures r.error.None?
    ensures |value| > 1 ==> r == s.(error := None)
    ensures |value| <= 1 ==> r == s.(error := None, otpCode := s.otpCode[index := KeepDigits(value)])
  {
    if |value| > 1 then s.(error := None)
    else s.(error := None, otpCode := s.otpCode[index := KeepDigits(value)])
  }

  /** Every code cell is empty or one digit. */
  predicate CellsWellFormed(cells: seq<string>) {
    |cells| == 4 && forall i :: 0 <= i < 4 ==> |cells[i]| <= 1 && AllDigits(cells[i])
  }

  /** Editing a cell keeps every cell empty or one digit. */
  lemma OtpInputKeepsCells(s: AuthState, index: nat, value: string)
    requires CellsWellFormed(s.otpCode) && index < 4
    ensures CellsWellFormed(HandleOtpInput(s, index, value).otpCode)
  {
  }

  /** The Confirm button is enabled while not loading and the joined code has at least four characters. */
  predicate ConfirmEnabled(s: AuthState) {
    !s.loading && |Join(s.otpCode)| >= 4
  }

  /** `handleOtpVerification`, once its delay has run: the fixed code succeeds; any other clears the cells and sets the error. */
  function HandleOtpVerification(s: AuthState, code: string): (r: AuthState)
    ensures code == FixedCode ==> r == s.(loading := false, screen := Success)
    ensures code != FixedCode ==> r == s.(loading := false, error := Some(InvalidCodeError), otpCode := BlankCells())
  {
    if code == FixedCode then s.(loading := false, screen := Success)
    else s.(loading := false, error := Some(InvalidCodeError), otpCode := BlankCells())
  }

  /** With well-formed cells, Confirm is enabled exactly when every cell holds a digit. */
  lemma ConfirmNeedsAllCells(s: AuthState)
    requires CellsWellFormed(s.otpCode) && !s.loading
    ensures ConfirmEnabled(s) <==> forall i :: 0 <= i < 4 ==> |s.otpCode[i]| == 1
  {
    JoinLength(s.otpCode);
  }

  /** A wrong code leaves the flow on the code screen with four blank cells, so Confirm is disabled again. */
  lemma WrongCodeDisablesConfirm(s: AuthState, code: string)
    requires code != FixedCode
    ensures var r := HandleOtpVerification(s, code); CellsWellFormed(r.otpCode) && !ConfirmEnabled(r)
  {
    var r := HandleOtpVerification(s, code);
    JoinLength(r.otpCode);
  }

  /** "Wrong number? Go back": the number screen again, with no number, blank cells and no error. */
  function GoBack(s: AuthState): (r: AuthState)
    ensures r == s.(screen := MobileInput, mobileNumber := "", otpCode := BlankCells(), error := None)
  {
    s.(screen := MobileInput, mobileNumber := "", otpCode := BlankCells(), error := None)
  }

  /** Going back disables Verify, since the number is empty. */
  lemma GoBackDisablesVerify(s: AuthState)
    ensures !VerifyEnabled(GoBack(s)) && CellsWellFormed(GoBack(s).otpCode)
  {
  }

  /** The picker's test: the name contains the term ignoring ASCII case, or the calling code contains it. */
  function CountryMatches(term: string): Country -> bool {
    (c: Country) => Includes(Lower(c.name), Lower(term)) || Includes(c.code, term)
  }

  /** The picker's list: the countries the term matches, in list order; an empty term keeps them all. */
  function FilterCountries(countries: seq<Country>, term: string): (r: seq<Country>)
    ensures Sublist(r, countries)
    ensures forall c :: c in r <==> c in countries && CountryMatches(term)(c)
  {
    FilterSublist(countries, CountryMatches(term));
    FilterMemberAll(countries, CountryMatches(term));
    Filter(countries, CountryMatches(term))
  }

  /** An empty search term keeps the whole list. */
  lemma EmptyTermKeepsAll(countries: seq<Country>)
    ensures FilterCountries(countries, "") == countries
  {
    forall i | 0 <= i < |countries|
      ensures CountryMatches("")(countries[i])
    {
      IncludesEmpty(Lower(countries[i].name));
    }
    FilterAll(countries, CountryMatches(""));
  }

  /** Choosing a country stores it and closes the picker. */
  function SelectCountry(s: AuthState, c: Country): (r: AuthState)
    ensures r == s.(country := c, pickerVisible := false)
  {
    s.(country := c, pickerVisible := false)
  }
}

/**
 * The older app's separate log-in screen: a random four-digit code generated
 * on the device and handed, with the name and phone, to the code screen.
 */
module LegacyLogin {
  import opened Wrappers
  import opened JsText
  import opened JsNumber
  import MobileLogin

  /** `Math.floor(1000 + Math.random() * 9000)` for a draw `d` of `Math.random()`. */
  function GenerateOtp(d: real): (n: nat)
    requires 0.0 <= d < 1.0
    ensures 1000 <= n <= 9999
  {
    (1000.0 + d * 9000.0).Floor
  }

  /** The generated number prints as four digits. */
  lemma GeneratedOtpHasFourDigits(d: real)
    requires 0.0 <= d < 1.0
    ensures |NatToString(GenerateOtp(d))| == 4
  {
    assert Pow10(3) == 1000 && Pow10(4) == 10000;
    NatToStringLength(GenerateOtp(d), 4);
  }

  /** `!phone.trim() || phone.length !== 10 || !/^\d+$/.test(phone)`, negated. */
  predicate PhoneAccepted(phone: string) {
    Trim(phone) != [] && |phone| == 10 && MobileLogin.DigitsOnly(phone)
  }

  /** This phone test and the mobile app's `validatePhone` accept the same numbers. */
  lemma PhoneChecksAgree(phone: string)
    ensures PhoneAccepted(phone) <==> MobileLogin.ValidatePhone(phone)
  {
    if MobileLogin.ValidatePhone(phone) {
      TrimDigits(phone);
    }
  }

  datatype OtpRoute = OtpRoute(name: string, phone: string, otp: string)

  datatype LegacyLoginError = NameRequired | InvalidPhone

  /** `handleGenerateOTP`: the name first, then the phone; the code screen gets the name and phone as typed. */
  function HandleGenerateOtp(name: string, phone: string, d: real): (r: Result<OtpRoute, LegacyLoginError>)
    requires 0.0 <= d < 1.0
    ensures r == Err(NameRequired) <==> Trim(name) == []
    ensures r == Err(InvalidPhone) <==> Trim(name) != [] && !PhoneAccepted(phone)
    ensures r.Ok? ==> r.value == OtpRoute(name, phone, NatToString(GenerateOtp(d)))
  {
    if Trim(name) == [] then Err(NameRequired)
    else if !PhoneAccepted(phone) then Err(InvalidPhone)
    else Ok(OtpRoute(name, phone, NatToString(GenerateOtp(d))))
  }
}
