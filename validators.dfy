/*
 * The input checks of the account views (accounts/views.py): the e-mail
 * pattern, the hotel-name, mobile-number and password rules, the choice of
 * the logo's file extension from a data URL, the client-address helper and
 * the escalating lockout table of the login rate limit.
 *
 * Each check returns the FIRST rule the input breaks, in the order the views
 * test them, or None when the input passes.
 */
module Validators {
  import opened Text

  /** One value per distinct rejection message of the views. */
  datatype Failure =
    | EmailMissing | EmailInvalid | EmailTooLong | EmailTaken
    | NameMissing | NameTooShort | NameTooLong | NameInvalidChars
    | MobileMissing | MobileNotDigits | MobileTooShort | MobileTooLong | MobileTrivial
    | PasswordMissing | PasswordTooShort | PasswordTooLong
    | PasswordNoUpper | PasswordNoLower | PasswordNoDigit | PasswordNoSpecial
    | PasswordTooCommon | PasswordHasHotelName
    | ConfirmMissing | ConfirmMismatch
    | LogoBadFormat | LogoTooLarge | LogoInvalid

  // ---------------------------------------------------------------------
  // E-mail: ^[a-zA-Z0-9._%+-]+@[a-zA-Z0-9.-]+\.[a-zA-Z]{2,}$
  // ---------------------------------------------------------------------

  const MaxEmailLength := 254

  predicate IsLocalChar(c: char) {
    IsLetter(c) || IsDigit(c) || c == '.' || c == '_' || c == '%' || c == '+' || c == '-'
  }

  predicate IsDomainChar(c: char) {
    IsLetter(c) || IsDigit(c) || c == '.' || c == '-'
  }

  /** `[a-zA-Z0-9.-]+\.[a-zA-Z]{2,}` covers all of `d`, its escaped dot at index `j`. */
  predicate DomainSplitAt(d: string, j: int) {
    && 1 <= j && j + 3 <= |d| && d[j] == '.'
    && (forall i :: 0 <= i < j ==> IsDomainChar(d[i]))
    && (forall i :: j < i < |d| ==> IsLetter(d[i]))
  }

  /** The whole pattern covers `s`, its `@` at index `k`. */
  predicate EmailSplitAt(s: string, k: int) {
    && 1 <= k < |s| && s[k] == '@'
    && (forall i :: 0 <= i < k ==> IsLocalChar(s[i]))
    && MatchesDomain(s[k + 1..])
  }

  predicate MatchesDomain(d: string) {
    exists j :: 0 <= j < |d| && DomainSplitAt(d, j)
  }

  /** re.match of the e-mail pattern on an already stripped string. */
  predicate MatchesEmailPattern(s: string) {
    exists k :: 0 <= k < |s| && EmailSplitAt(s, k)
  }

  /** The part before `@` of a matching address: what registration derives a username from. */
  lemma {:induction false} EmailLocalPart(s: string)
    requires MatchesEmailPattern(s)
    ensures var local := FirstField(s, '@');
      1 <= |local| < |s| && s[|local|] == '@' && forall i :: 0 <= i < |local| ==> IsLocalChar(local[i])
  {
    var k :| 0 <= k < |s| && EmailSplitAt(s, k);
    assert !IsLocalChar('@');
    FirstFieldAt(s, '@', k);
  }

  /** Lines 195-206 (and 598-609): an address is required and must match the pattern. */
  function CheckEmail(email: string): (r: Option<Failure>)
    ensures r.None? <==> MatchesEmailPattern(email)
    ensures r == Some(EmailMissing) <==> email == []
    ensures r.Some? ==> r.value in {EmailMissing, EmailInvalid}
  {
    if email == [] then Some(EmailMissing)
    else if !MatchesEmailPattern(email) then Some(EmailInvalid)
    else None
  }

  // ---------------------------------------------------------------------
  // Hotel name
  // ---------------------------------------------------------------------

  const MinHotelName := 2
  const MaxHotelName := 200

  /** `[a-zA-Z0-9\s&\'\-\.]` */
  predicate IsHotelNameChar(c: char) {
    IsLetter(c) || IsDigit(c) || IsSpace(c) || c == '&' || c == '\'' || c == '-' || c == '.'
  }

  predicate IsValidHotelName(name: string) {
    MinHotelName <= |name| <= MaxHotelName && forall i :: 0 <= i < |name| ==> IsHotelNameChar(name[i])
  }

  function CheckHotelName(name: string): (r: Option<Failure>)
    ensures r.None? <==> IsValidHotelName(name)
    ensures r == Some(NameMissing) <==> name == []
    ensures r.Some? ==> r.value in {NameMissing, NameTooShort, NameTooLong, NameInvalidChars}
  {
    if name == [] then Some(NameMissing)
    else if |name| < MinHotelName then Some(NameTooShort)
    else if |name| > MaxHotelName then Some(NameTooLong)
    else if exists i :: 0 <= i < |name| && !IsHotelNameChar(name[i]) then Some(NameInvalidChars)
    else None
  }

  // ---------------------------------------------------------------------
  // Mobile number
  // ---------------------------------------------------------------------

  const MinMobileDigits := 10
  const MaxMobileDigits := 15
  const SequentialPatterns: seq<string> := ["1234567890", "0987654321", "0123456789"]

  /** `[\s\-\(\)\+]`, the characters re.sub removes before the digit checks. */
  predicate IsMobileSeparator(c: char) {
    IsSpace(c) || c == '-' || c == '(' || c == ')' || c == '+'
  }

  predicate NoSeparators(s: string) {
    forall i :: 0 <= i < |s| ==> !IsMobileSeparator(s[i])
  }

  /** What cleaning keeps of one character. */
  function Kept(c: char): (r: string)
    ensures r == [] <==> IsMobileSeparator(c)
    ensures r != [] ==> r == [c]
  {
    if IsMobileSeparator(c) then [] else [c]
  }

  function CleanMobile(s: string): (r: string)
    ensures |r| <= |s|
    ensures NoSeparators(r)
    ensures NoSeparators(s) ==> r == s
  {
    if s == [] then [] else Kept(s[0]) + CleanMobile(s[1..])
  }

  /** `len(set(s)) == 1` */
  predicate IsOneRepeatedChar(s: string) {
    s != [] && forall i :: 0 <= i < |s| ==> s[i] == s[0]
  }

  /** `s in pattern or pattern in s`, for one of the three sequential runs. */
  predicate IsSequentialRun(s: string) {
    exists p :: p in SequentialPatterns && (Contains(p, s) || Contains(s, p))
  }

  /** What the cleaned form of an accepted number satisfies. */
  predicate IsAcceptableMobile(cleaned: string) {
    && AllDigits(cleaned)
    && MinMobileDigits <= |cleaned| <= MaxMobileDigits
    && !IsOneRepeatedChar(cleaned)
    && !IsSequentialRun(cleaned)
  }

  /** Lines 367-405 (and 996-1029): `raw` is the stripped field. */
  function CheckMobile(raw: string): (r: Option<Failure>)
    ensures r.None? <==> raw != [] && IsAcceptableMobile(CleanMobile(raw))
    ensures r == Some(MobileMissing) <==> raw == []
    ensures r == Some(MobileTooLong) ==> AllDigits(CleanMobile(raw)) && |CleanMobile(raw)| > MaxMobileDigits
    ensures r.Some? ==> r.value in {MobileMissing, MobileNotDigits, MobileTooShort, MobileTooLong, MobileTrivial}
  {
    if raw == [] then Some(MobileMissing)
    else
      var cleaned := CleanMobile(raw);
      // str.isdigit() is false for the empty string
      if cleaned == [] || !AllDigits(cleaned) then Some(MobileNotDigits)
      else if |cleaned| < MinMobileDigits then Some(MobileTooShort)
      else if |cleaned| > MaxMobileDigits then Some(MobileTooLong)
      else if IsOneRepeatedChar(cleaned) then Some(MobileTrivial)
      else if IsSequentialRun(cleaned) then Some(MobileTrivial)
      else None
  }

  /** Cleaning works piece by piece. */
  lemma {:induction false} CleanMobileAppend(a: string, b: string)
    ensures CleanMobile(a + b) == CleanMobile(a) + CleanMobile(b)
  {
    if a == [] {
      assert a + b == b;
    } else {
      assert (a + b)[0] == a[0];
      assert (a + b)[1..] == a[1..] + b;
      CleanMobileAppend(a[1..], b);
      assert CleanMobile(a + b) == Kept(a[0]) + CleanMobile(a[1..] + b);
    }
  }

  /** Separators alone clean to nothing. */
  lemma CleanSeparatorsOnly(s: string)
    requires forall i :: 0 <= i < |s| ==> IsMobileSeparator(s[i])
    ensures CleanMobile(s) == []
  {
  }

  /** A run of separators followed by a run without any cleans to the latter. */
  lemma CleanRun(s: string, d: string)
    requires forall i :: 0 <= i < |s| ==> IsMobileSeparator(s[i])
    requires NoSeparators(d)
    ensures CleanMobile(s + d) == d
  {
    CleanSeparatorsOnly(s);
    CleanMobileAppend(s, d);
  }

  /** Cleaning four pieces one after the other. */
  lemma CleanFour(a: string, b: string, c: string, d: string)
    ensures CleanMobile(a + b + c + d) == CleanMobile(a) + CleanMobile(b) + CleanMobile(c) + CleanMobile(d)
  {
    CleanMobileAppend(a, b);
    CleanMobileAppend(a + b, c);
    CleanMobileAppend(a + b + c, d);
  }

  /** `15551234567` is neither inside nor around any of the sequential runs. */
  lemma NotSequential(s: string)
    requires s == "1" + "555" + "123" + "4567"
    ensures !IsSequentialRun(s)
  {
    forall p | p in SequentialPatterns
      ensures !Contains(p, s) && !Contains(s, p)
    {
      forall i | 0 <= i <= |s| - |p|
        ensures !OccursAt(s, p, i)
      {
        assert s[i..i + |p|][0] == s[i] && s[i..i + |p|][1] == s[i + 1];
        assert s[i] != p[0] || s[i + 1] != p[1];
      }
    }
  }

  predicate AllSeparators(s: string) {
    forall i :: 0 <= i < |s| ==> IsMobileSeparator(s[i])
  }

  /** A number written as four separator runs, each followed by a run of digits, cleans to its digits. */
  lemma FormattedCleans(s1: string, d1: string, s2: string, d2: string, s3: string, d3: string, s4: string, d4: string)
    requires AllSeparators(s1) && AllSeparators(s2) && AllSeparators(s3) && AllSeparators(s4)
    requires NoSeparators(d1) && NoSeparators(d2) && NoSeparators(d3) && NoSeparators(d4)
    ensures CleanMobile(s1 + d1 + (s2 + d2) + (s3 + d3) + (s4 + d4)) == d1 + d2 + d3 + d4
  {
    CleanRun(s1, d1);
    CleanRun(s2, d2);
    CleanRun(s3, d3);
    CleanRun(s4, d4);
    CleanFour(s1 + d1, s2 + d2, s3 + d3, s4 + d4);
  }

  /** The separators of a formatted number fall away and leave its eleven digits. */
  lemma SampleMobileCleans(raw: string)
    requires raw == "+" + "1" + (" (" + "555") + (") " + "123") + ("-" + "4567")
    ensures CleanMobile(raw) == "1" + "555" + "123" + "4567"
  {
    FormattedCleans("+", "1", " (", "555", ") ", "123", "-", "4567");
  }

  /** Those eleven digits pass every mobile rule. */
  lemma SampleDigitsAcceptable(c: string)
    requires c == "1" + "555" + "123" + "4567"
    ensures IsAcceptableMobile(c)
  {
    NotSequential(c);
    assert c[1] != c[0];
  }

  // ---------------------------------------------------------------------
  // Password policy
  // ---------------------------------------------------------------------

  const MinPassword := 8
  const MaxPassword := 128

  /** `[!@#$%^&*(),.?":{}|<>_\-+=\[\]\\;\'`~]` */
  const SpecialCharacters: string := "!@#$%^&*(),.?\":{}|<>_-+=[]\\;'`~"

  const CommonPasswords: seq<string> := [
    "password", "password1", "password123", "12345678", "qwerty123",
    "letmein", "welcome", "admin123", "abc123", "monkey123",
    "Password1", "Password123", "Qwerty123", "Welcome1", "Admin123",
    "Hotel123", "Booking1", "Manager1"
  ]

  predicate IsSpecial(c: char) { c in SpecialCharacters }

  predicate IsAlnum(c: char) { IsLetter(c) || IsDigit(c) }

  predicate IsAlnumString(s: string) { forall i :: 0 <= i < |s| ==> IsAlnum(s[i]) }

  predicate HasUpper(s: string) { exists i :: 0 <= i < |s| && IsUpper(s[i]) }
  predicate HasLower(s: string) { exists i :: 0 <= i < |s| && IsLower(s[i]) }
  predicate HasDigit(s: string) { exists i :: 0 <= i < |s| && IsDigit(s[i]) }
  predicate HasSpecial(s: string) { exists i :: 0 <= i < |s| && IsSpecial(s[i]) }

  /** The complexity rules every password-setting flow applies. */
  predicate IsStrongPassword(pw: string) {
    MinPassword <= |pw| <= MaxPassword && HasUpper(pw) && HasLower(pw) && HasDigit(pw) && HasSpecial(pw)
  }

  /** `password.lower() in [p.lower() for p in common_passwords]` */
  predicate IsCommonPassword(pw: string) {
    exists k :: 0 <= k < |CommonPasswords| && Lower(CommonPasswords[k]) == Lower(pw)
  }

  predicate NoSpaces(s: string) {
    forall i :: 0 <= i < |s| ==> s[i] != ' '
  }

  /** `str.replace(' ', '')` */
  function RemoveSpaces(s: string): (r: string)
    ensures NoSpaces(r) && |r| <= |s|
    ensures NoSpaces(s) ==> r == s
    ensures |s| == 1 ==> r == (if s[0] == ' ' then [] else s)
    ensures forall c :: c != ' ' ==> multiset(r)[c] == multiset(s)[c]
  {
    if s == [] then []
    else
      var head := if s[0] == ' ' then [] else [s[0]];
      assert s == [s[0]] + s[1..];
      assert multiset(s) == multiset([s[0]]) + multiset(s[1..]);
      head + RemoveSpaces(s[1..])
  }

  /** Removing spaces works piecewise, so it keeps every other character in order. */
  lemma {:induction false} RemoveSpacesAppend(a: string, b: string)
    ensures RemoveSpaces(a + b) == RemoveSpaces(a) + RemoveSpaces(b)
  {
    if a == [] {
      assert a + b == b;
    } else {
      var head := if a[0] == ' ' then [] else [a[0]];
      assert (a + b)[0] == a[0];
      assert (a + b)[1..] == a[1..] + b;
      RemoveSpacesAppend(a[1..], b);
      assert RemoveSpaces(a + b) == head + RemoveSpaces(a[1..] + b);
    }
  }

  /** `hotel_name.lower().replace(' ', '') in password.lower()` */
  predicate ContainsHotelName(pw: string, hotelName: string) {
    Contains(Lower(pw), RemoveSpaces(Lower(hotelName)))
  }

  /** Lines 752-792: the rules the reset flow checks, first failure wins. */
  function CheckPasswordStrength(pw: string): (r: Option<Failure>)
    ensures r.None? <==> IsStrongPassword(pw)
    ensures r == Some(PasswordMissing) <==> pw == []
    ensures r == Some(PasswordNoSpecial) ==>
              MinPassword <= |pw| <= MaxPassword && HasUpper(pw) && HasLower(pw) && HasDigit(pw)
    ensures r.Some? ==> r.value in {PasswordMissing, PasswordTooShort, PasswordTooLong,
                                    PasswordNoUpper, PasswordNoLower, PasswordNoDigit, PasswordNoSpecial}
  {
    if pw == [] then Some(PasswordMissing)
    else if |pw| < MinPassword then Some(PasswordTooShort)
    else if |pw| > MaxPassword then Some(PasswordTooLong)
    else if !HasUpper(pw) then Some(PasswordNoUpper)
    else if !HasLower(pw) then Some(PasswordNoLower)
    else if !HasDigit(pw) then Some(PasswordNoDigit)
    else if !HasSpecial(pw) then Some(PasswordNoSpecial)
    else None
  }

  /** Lines 408-467 (and 1187-1246): strength, then the common list, then the hotel name. */
  function CheckPasswordPolicy(pw: string, hotelName: string): (r: Option<Failure>)
    ensures r.None? <==> IsStrongPassword(pw) && !IsCommonPassword(pw) && !ContainsHotelName(pw, hotelName)
    ensures r == Some(PasswordHasHotelName) <==> IsStrongPassword(pw) && !IsCommonPassword(pw) && ContainsHotelName(pw, hotelName)
  {
    var strength := CheckPasswordStrength(pw);
    if strength.Some? then strength
    else if IsCommonPassword(pw) then Some(PasswordTooCommon)
    else if ContainsHotelName(pw, hotelName) then Some(PasswordHasHotelName)
    else None
  }

  /** Lower-casing keeps every special character where it was. */
  lemma LowerKeepsSpecial(pw: string)
    requires HasSpecial(pw)
    ensures HasSpecial(Lower(pw))
  {
    var i :| 0 <= i < |pw| && IsSpecial(pw[i]);
    assert !IsUpper(pw[i]);
    assert Lower(pw)[i] == pw[i];
  }

  /** No entry of the common list holds a special character, even lower-cased. */
  lemma CommonPasswordsPlain(k: int)
    requires 0 <= k < |CommonPasswords|
    ensures !HasSpecial(Lower(CommonPasswords[k]))
  {
    var p := CommonPasswords[k];
    CommonPasswordsAlnum(k);
    forall i | 0 <= i < |p|
      ensures !IsSpecial(Lower(p)[i])
    {
      assert IsAlnum(p[i]);
    }
  }

  lemma CommonPasswordsAlnum(k: int)
    requires 0 <= k < |CommonPasswords|
    ensures IsAlnumString(CommonPasswords[k])
  {
    if k < 9 {
      FirstCommonPasswordsAlnum(k);
    } else {
      LastCommonPasswordsAlnum(k);
    }
  }

  lemma FirstCommonPasswordsAlnum(k: int)
    requires 0 <= k < 9
    ensures IsAlnumString(CommonPasswords[k])
  {
    if k == 0 { assert CommonPasswords[0] == "password"; }
    else if k == 1 { assert CommonPasswords[1] == "password1"; }
    else if k == 2 { assert CommonPasswords[2] == "password123"; }
    else if k == 3 { assert CommonPasswords[3] == "12345678"; }
    else if k == 4 { assert CommonPasswords[4] == "qwerty123"; }
    else if k == 5 { assert CommonPasswords[5] == "letmein"; }
    else if k == 6 { assert CommonPasswords[6] == "welcome"; }
    else if k == 7 { assert CommonPasswords[7] == "admin123"; }
    else if k == 8 { assert CommonPasswords[8] == "abc123"; }
  }

  lemma LastCommonPasswordsAlnum(k: int)
    requires 9 <= k < |CommonPasswords|
    ensures IsAlnumString(CommonPasswords[k])
  {
    if k == 9 { assert CommonPasswords[9] == "monkey123"; }
    else if k == 10 { assert CommonPasswords[10] == "Password1"; }
    else if k == 11 { assert CommonPasswords[11] == "Password123"; }
    else if k == 12 { assert CommonPasswords[12] == "Qwerty123"; }
    else if k == 13 { assert CommonPasswords[13] == "Welcome1"; }
    else if k == 14 { assert CommonPasswords[14] == "Admin123"; }
    else if k == 15 { assert CommonPasswords[15] == "Hotel123"; }
    else if k == 16 { assert CommonPasswords[16] == "Booking1"; }
    else if k == 17 { assert CommonPasswords[17] == "Manager1"; }
  }

  /** A password that got past the special-character rule is never on the common list. */
  lemma {:induction false} StrongPasswordNeverCommon(pw: string)
    requires HasSpecial(pw)
    ensures !IsCommonPassword(pw)
  {
    LowerKeepsSpecial(pw);
    forall k | 0 <= k < |CommonPasswords|
      ensures Lower(CommonPasswords[k]) != Lower(pw)
    {
      CommonPasswordsPlain(k);
    }
  }

  /** Hence the common-password rule never decides the outcome of the policy. */
  lemma PolicyNeverReportsCommon(pw: string, hotelName: string)
    ensures CheckPasswordPolicy(pw, hotelName) != Some(PasswordTooCommon)
  {
    if CheckPasswordStrength(pw).None? {
      StrongPasswordNeverCommon(pw);
    }
  }

  // ---------------------------------------------------------------------
  // Logo data URL
  // ---------------------------------------------------------------------

  const MaxLogoBytes := 2 * 1024 * 1024
  const Base64Marker := "base64,"
  const LogoExtensions: set<string> := {"png", "jpg", "gif", "webp"}

  datatype LogoDecision = NoUpload | Upload(ext: string) | Rejected(failure: Failure)

  /** Lines 489-501: the first image type named in the part before `base64,`. */
  function LogoExtension(formatPart: string): (r: Option<string>)
    ensures r.Some? ==> r.value in LogoExtensions
    ensures r == Some("png") <==> Contains(formatPart, "png")
    ensures r == Some("jpg") <==>
              !Contains(formatPart, "png") && (Contains(formatPart, "jpeg") || Contains(formatPart, "jpg"))
    ensures r == Some("gif") <==>
              && !Contains(formatPart, "png") && !Contains(formatPart, "jpeg") && !Contains(formatPart, "jpg")
              && Contains(formatPart, "gif")
    ensures r == Some("webp") <==>
              && !Contains(formatPart, "png") && !Contains(formatPart, "jpeg") && !Contains(formatPart, "jpg")
              && !Contains(formatPart, "gif") && Contains(formatPart, "webp")
    ensures r.None? <==> !Contains(formatPart, "png") && !Contains(formatPart, "jpeg") && !Contains(formatPart, "jpg")
                          && !Contains(formatPart, "gif") && !Contains(formatPart, "webp")
  {
    if Contains(formatPart, "png") then Some("png")
    else if Contains(formatPart, "jpeg") || Contains(formatPart, "jpg") then Some("jpg")
    else if Contains(formatPart, "gif") then Some("gif")
    else if Contains(formatPart, "webp") then Some("webp")
    else None
  }

  /**
   * Lines 484-516: an optional logo given as a data URL. `decodedLength` is
   * the length of what base64 decoding yields, or None when decoding raises.
   * Without the `base64,` marker the field is silently ignored; with more
   * than one marker the two-way unpacking of `split` raises.
   */
  function CheckLogo(data: string, decodedLength: Option<nat>): (r: LogoDecision)
    ensures r == NoUpload <==> !Contains(data, Base64Marker)
    ensures r.Upload? ==> r.ext in LogoExtensions
    ensures r.Upload? ==> decodedLength.Some? && decodedLength.value <= MaxLogoBytes
    ensures Contains(data, Base64Marker) && decodedLength.None? ==> r.Rejected?
    ensures r.Rejected? ==> r.failure in {LogoBadFormat, LogoTooLarge, LogoInvalid}
    ensures Contains(data, Base64Marker) ==>
              var i := IndexOf(data, Base64Marker).value;
              var single := !Contains(data[i + |Base64Marker|..], Base64Marker);
              var ext := LogoExtension(data[..i]);
              && (r == Rejected(LogoInvalid) <==> !single || (ext.Some? && decodedLength.None?))
              && (r == Rejected(LogoBadFormat) <==> single && ext.None?)
              && (r == Rejected(LogoTooLarge) <==>
                    single && ext.Some? && decodedLength.Some? && decodedLength.value > MaxLogoBytes)
              && (r.Upload? <==>
                    single && ext.Some? && decodedLength.Some? && decodedLength.value <= MaxLogoBytes)
              && (r.Upload? ==> r.ext == ext.value)
  {
    match IndexOf(data, Base64Marker)
    case None => NoUpload
    case Some(i) =>
      var formatPart := data[..i];
      var rest := data[i + |Base64Marker|..];
      if Contains(rest, Base64Marker) then Rejected(LogoInvalid)
      else match LogoExtension(formatPart)
        case None => Rejected(LogoBadFormat)
        case Some(ext) =>
          match decodedLength
          case None => Rejected(LogoInvalid)
          case Some(n) => if n > MaxLogoBytes then Rejected(LogoTooLarge) else Upload(ext)
  }

  // ---------------------------------------------------------------------
  // Client address and lockout table
  // ---------------------------------------------------------------------

  /** Lines 42-49: the first comma-separated field of X-Forwarded-For, else REMOTE_ADDR. */
  function ClientIp(forwardedFor: Option<string>, remoteAddr: Option<string>): (ip: Option<string>)
    ensures forwardedFor.Some? && forwardedFor.value != [] ==>
              var h := forwardedFor.value;
              && ip.Some? && ',' !in ip.value && |ip.value| <= |h| && ip.value == h[..|ip.value|]
              && (|ip.value| == |h| || h[|ip.value|] == ',')
    ensures forwardedFor.None? || forwardedFor.value == [] ==> ip == remoteAddr
  {
    if forwardedFor.Some? && forwardedFor.value != [] then Some(FirstField(forwardedFor.value, ','))
    else remoteAddr
  }

  /** Lines 28-39: the lockout window, in minutes, after `count` failures. */
  function LockoutMinutes(count: int): (m: nat)
    ensures m == 0 <==> count < 5
    ensures m <= 10
    ensures m in {0, 2, 3, 5, 10}
  {
    if count < 5 then 0
    else if count < 10 then 2
    else if count < 15 then 3
    else if count < 20 then 5
    else 10
  }

  /** More failures never shorten the window. */
  lemma LockoutMonotone(a: int, b: int)
    requires a <= b
    ensures LockoutMinutes(a) <= LockoutMinutes(b)
  {
  }

  /**
   * Lines 263-266: failures left before the next multiple of five. The
   * source's `== 0` branch cannot be taken.
   */
  function AttemptsUntilLockout(count: int): (k: int)
    ensures 1 <= k <= 5 && (count + k) % 5 == 0
  {
    var k := 5 - count % 5;
    if k == 0 then assert false; 5 else k
  }

  /** The lockout that the warning after a failure announces is a real one. */
  lemma {:induction false} AnnouncedLockoutIsReal(count: int)
    requires count >= 1
    ensures LockoutMinutes(count + AttemptsUntilLockout(count)) > 0
  {
    var k := AttemptsUntilLockout(count);
    var n := count + k;
    assert n % 5 == 0 && n >= 2;
    assert n == (n / 5) * 5;
    assert n / 5 >= 1;
  }
}
