/*
 * Account creation and the profile views of accounts/views.py:
 * `register_view` (its field checks, the username search and the rows it
 * creates) and the three actions of `update_profile_view`.
 *
 * The database is given as values: the e-mail addresses and user names
 * already registered, the id the new user receives, and the length that
 * base64 decoding of a logo yields.
 */
module Registration {
  import opened Text
  import opened Validators
  import opened HotelModel
  import opened Accounts

  /** `User.objects.filter(email__iexact=email).exists()` */
  predicate EmailInUse(emails: set<string>, email: string) {
    exists e :: e in emails && Lower(e) == Lower(email)
  }

  /** The registered names as `username__iexact` compares them. */
  function Folded(names: set<string>): (r: set<string>)
    ensures forall u :: u in names ==> Lower(u) in r
    ensures forall x :: x in r ==> exists u :: u in names && x == Lower(u)
  {
    set u | u in names :: Lower(u)
  }

  // ---------------------------------------------------------------------
  // The username search (lines 519-526)
  // ---------------------------------------------------------------------

  /** The `k`-th name tried: the base itself, then `base1`, `base2`, ... */
  function Candidate(base: string, k: nat): (name: string)
    ensures k == 0 ==> name == base
    ensures k > 0 ==> |name| > |base| && name[..|base|] == base && name[|base|..] == NatToString(k)
  {
    if k == 0 then base else base + NatToString(k)
  }

  /** `name` is the `k`-th candidate, it is free, and all earlier ones are taken. */
  predicate FirstFree(base: string, folded: set<string>, name: string, k: nat) {
    && name == Candidate(base, k)
    && Lower(name) !in folded
    && forall j :: 0 <= j < k ==> Lower(Candidate(base, j)) in folded
  }

  /** Distinct candidates stay distinct once lower-cased. */
  lemma CandidateInjective(base: string, i: nat, j: nat)
    requires Lower(Candidate(base, i)) == Lower(Candidate(base, j))
    ensures i == j
  {
    if i > 0 {
      LowerAppend(base, NatToString(i));
      LowerOfDigits(NatToString(i));
    }
    if j > 0 {
      LowerAppend(base, NatToString(j));
      LowerOfDigits(NatToString(j));
    }
    if i > 0 && j > 0 {
      var x := Lower(Candidate(base, i));
      assert x[|base|..] == NatToString(i);
      assert x[|base|..] == NatToString(j);
      NatToStringInjective(i, j);
    }
  }

  /** The first `n` candidates, lower-cased. */
  ghost function Tried(base: string, n: nat): set<string>
  {
    if n == 0 then {} else Tried(base, n - 1) + {Lower(Candidate(base, n - 1))}
  }

  lemma {:induction false} TriedMembers(base: string, n: nat, x: string)
    ensures x in Tried(base, n) <==> exists j :: 0 <= j < n && x == Lower(Candidate(base, j))
  {
    if n > 0 {
      var last := Lower(Candidate(base, n - 1));
      TriedMembers(base, n - 1, x);
      if x == last {
        assert 0 <= n - 1 < n && x == Lower(Candidate(base, n - 1));
      } else if x in Tried(base, n - 1) {
        var j :| 0 <= j < n - 1 && x == Lower(Candidate(base, j));
        assert 0 <= j < n && x == Lower(Candidate(base, j));
      } else {
        forall j | 0 <= j < n
          ensures x != Lower(Candidate(base, j))
        {
          if j == n - 1 {
            assert x != last;
          }
        }
      }
    }
  }

  lemma {:induction false} TriedSize(base: string, n: nat)
    ensures |Tried(base, n)| == n
  {
    if n > 0 {
      TriedSize(base, n - 1);
      var x := Lower(Candidate(base, n - 1));
      TriedMembers(base, n - 1, x);
      if x in Tried(base, n - 1) {
        var j :| 0 <= j < n - 1 && x == Lower(Candidate(base, j));
        CandidateInjective(base, j, n - 1);
      }
    }
  }

  lemma {:induction false} SubsetSize<T>(a: set<T>, b: set<T>)
    requires a <= b
    ensures |a| <= |b|
  {
    if a != {} {
      var x :| x in a;
      SubsetSize(a - {x}, b - {x});
    }
  }

  /** Only as many candidates as there are registered names can be taken. */
  lemma TakenCandidatesBound(base: string, n: nat, folded: set<string>)
    requires forall j :: 0 <= j < n ==> Lower(Candidate(base, j)) in folded
    ensures n <= |folded|
  {
    forall x | x in Tried(base, n)
      ensures x in folded
    {
      TriedMembers(base, n, x);
    }
    TriedSize(base, n);
    SubsetSize(Tried(base, n), folded);
  }

  /** Lines 519-526: try `base`, `base1`, `base2`, ... until a name is free. */
  method FindUsername(base: string, usernames: set<string>) returns (username: string, suffix: nat)
    ensures FirstFree(base, Folded(usernames), username, suffix)
    ensures suffix <= |usernames|
  {
    var folded := Folded(usernames);
    username := base;
    var counter := 1;
    while Lower(username) in folded
      invariant 1 <= counter && username == Candidate(base, counter - 1)
      invariant forall j :: 0 <= j < counter - 1 ==> Lower(Candidate(base, j)) in folded
      decreases |folded| - counter
    {
      TakenCandidatesBound(base, counter, folded);
      username := base + NatToString(counter);
      counter := counter + 1;
    }
    suffix := counter - 1;
    TakenCandidatesBound(base, suffix, folded);
    FoldedSize(usernames);
  }

  lemma {:induction false} FoldedSize(names: set<string>)
    ensures |Folded(names)| <= |names|
  {
    if names != {} {
      var u :| u in names;
      FoldedSize(names - {u});
      assert Folded(names) == Folded(names - {u}) + {Lower(u)};
    }
  }

  /** The search has one answer: the first free candidate is unique. */
  lemma FirstFreeUnique(base: string, folded: set<string>, n1: string, k1: nat, n2: string, k2: nat)
    requires FirstFree(base, folded, n1, k1) && FirstFree(base, folded, n2, k2)
    ensures k1 == k2 && n1 == n2
  {
  }

  // ---------------------------------------------------------------------
  // The stored mobile number
  // ---------------------------------------------------------------------

  /** Corrected: the number is stored as the digits the rules checked, without separators. */
  function StoredMobile(mobile: string): (r: string)
    ensures CheckMobile(mobile).None? ==> AllDigits(r) && MinMobileDigits <= |r| <= MobileColumn
    ensures CheckMobile(mobile).None? ==> CheckMobile(r).None?
    ensures CheckMobile(mobile).None? ==> r == CleanMobile(mobile)
  {
    CleanMobile(mobile)
  }

  /**
   * How an accepted number reaches the `mobile_number` column: as typed
   * (lines 540 and 1031-1035, the program as written) or as its digits
   * (the correction).
   */
  datatype MobileStorage = AsTyped | Digits

  function StoreMobile(storage: MobileStorage, mobile: string): (r: string)
    ensures storage == AsTyped ==> r == mobile
    ensures storage == Digits ==> r == StoredMobile(mobile)
    ensures mobile == [] ==> r == []
    ensures CheckMobile(mobile).None? ==> r != [] && CheckMobile(r).None?
  {
    match storage
    case AsTyped => mobile
    case Digits => StoredMobile(mobile)
  }

  // ---------------------------------------------------------------------
  // register_view (lines 297-572)
  // ---------------------------------------------------------------------

  /** The JSON fields of a registration request, as sent. */
  datatype RegisterForm = RegisterForm(hotelLogo: string, hotelName: string, email: string, mobileNumber: string,
                                       password: string, confirmPassword: string)

  /** Everything the view checks, stated as one condition. */
  predicate RegistrationAcceptable(f: RegisterForm, registered: set<string>, decodedLength: Option<nat>) {
    var name := Strip(f.hotelName);
    var email := NormalEmail(f.email);
    && IsValidHotelName(name)
    && MatchesEmailPattern(email) && |email| <= MaxEmailLength && !EmailInUse(registered, email)
    && CheckMobile(Strip(f.mobileNumber)).None?
    && IsStrongPassword(f.password) && !IsCommonPassword(f.password) && !ContainsHotelName(f.password, name)
    && f.confirmPassword == f.password
    && !CheckLogo(f.hotelLogo, decodedLength).Rejected?
  }

  /** Lines 340-364: the address checks of registration, in order. */
  function CheckNewEmail(email: string, registered: set<string>): (r: Option<Failure>)
    ensures r.None? <==> MatchesEmailPattern(email) && |email| <= MaxEmailLength && !EmailInUse(registered, email)
    ensures r == Some(EmailTaken) <==>
              MatchesEmailPattern(email) && |email| <= MaxEmailLength && EmailInUse(registered, email)
  {
    if CheckEmail(email).Some? then CheckEmail(email)
    else if |email| > MaxEmailLength then Some(EmailTooLong)
    else if EmailInUse(registered, email) then Some(EmailTaken)
    else None
  }

  /** Lines 408-480: the password policy, then its confirmation. */
  function CheckNewPassword(password: string, confirmPassword: string, hotelName: string): (r: Option<Failure>)
    ensures r.None? <==>
              && IsStrongPassword(password) && !IsCommonPassword(password) && !ContainsHotelName(password, hotelName)
              && confirmPassword == password
    ensures r.Some? ==> r.value != EmailTaken
  {
    if CheckPasswordPolicy(password, hotelName).Some? then CheckPasswordPolicy(password, hotelName)
    else if confirmPassword == [] then Some(ConfirmMissing)
    else if password != confirmPassword then Some(ConfirmMismatch)
    else None
  }

  /** Lines 367-516: the checks that follow the e-mail, in order. None of them reports a taken address. */
  function CheckLaterFields(f: RegisterForm, name: string, decodedLength: Option<nat>): (r: Option<Failure>)
    ensures r.None? <==>
              && CheckMobile(Strip(f.mobileNumber)).None?
              && IsStrongPassword(f.password) && !IsCommonPassword(f.password) && !ContainsHotelName(f.password, name)
              && f.confirmPassword == f.password
              && !CheckLogo(f.hotelLogo, decodedLength).Rejected?
    ensures r != Some(EmailTaken)
  {
    var logo := CheckLogo(f.hotelLogo, decodedLength);
    if CheckMobile(Strip(f.mobileNumber)).Some? then CheckMobile(Strip(f.mobileNumber))
    else if CheckNewPassword(f.password, f.confirmPassword, name).Some? then
      CheckNewPassword(f.password, f.confirmPassword, name)
    else if logo.Rejected? then Some(logo.failure)
    else None
  }

  /** Lines 314-516: the checks of `register_view`, first failure wins. */
  function CheckRegistration(f: RegisterForm, registered: set<string>, decodedLength: Option<nat>): (r: Option<Failure>)
    ensures r.None? <==> RegistrationAcceptable(f, registered, decodedLength)
  {
    var name := Strip(f.hotelName);
    if CheckHotelName(name).Some? then CheckHotelName(name)
    else if CheckNewEmail(NormalEmail(f.email), registered).Some? then CheckNewEmail(NormalEmail(f.email), registered)
    else CheckLaterFields(f, name, decodedLength)
  }

  /**
   * Lines 355-364: a well-formed address already in use is reported as
   * taken once the hotel name has passed, whatever the later fields hold.
   */
  lemma EmailTakenReported(f: RegisterForm, registered: set<string>, decodedLength: Option<nat>)
    ensures CheckRegistration(f, registered, decodedLength) == Some(EmailTaken) <==>
              var email := NormalEmail(f.email);
              && IsValidHotelName(Strip(f.hotelName))
              && MatchesEmailPattern(email) && |email| <= MaxEmailLength && EmailInUse(registered, email)
  {
    var name := Strip(f.hotelName);
    var email := NormalEmail(f.email);
    var r := CheckRegistration(f, registered, decodedLength);
    if CheckHotelName(name).Some? {
      assert r == CheckHotelName(name);
    } else if CheckNewEmail(email, registered).Some? {
      assert r == CheckNewEmail(email, registered);
    } else {
      assert r == CheckLaterFields(f, name, decodedLength);
    }
  }

  /** `s[:n]` */
  function Prefix(s: string, n: nat): (r: string)
    ensures |r| <= n && |r| <= |s| && r == s[..|r|]
    ensures |s| <= n ==> r == s
  {
    if |s| <= n then s else s[..n]
  }

  const FirstNameLength := 30

  /** The `User` and `Hotel` rows that a successful registration creates. */
  datatype NewAccount = NewAccount(username: string, email: string, password: string, firstName: string, hotel: Hotel)

  /**
   * Lines 484-516 and 537-545: the `Hotel` row a successful registration
   * creates, with the number stored as `storage` says and the uploaded
   * logo saved under the name `logo.<ext>`.
   */
  function RegisteredHotel(f: RegisterForm, userId: nat, decodedLength: Option<nat>, storage: MobileStorage): (h: Hotel)
    ensures h.userId == userId && h.hotelName == Strip(f.hotelName) && h.isActive
    ensures h.mobileNumber == StoreMobile(storage, Strip(f.mobileNumber))
    ensures match CheckLogo(f.hotelLogo, decodedLength)
            case Upload(ext) => h.logo == LogoPath(userId, "logo." + ext)
            case _ => h.logo == []
  {
    var h := NewHotel(userId, Strip(f.hotelName), StoreMobile(storage, Strip(f.mobileNumber)));
    match CheckLogo(f.hotelLogo, decodedLength)
    case Upload(ext) => h.(logo := LogoPath(userId, "logo." + ext))
    case _ => h
  }

  /**
   * As written: the rules accept `+1 (555) 123-4567`, whose digits are
   * eleven, but the row stores its 17 characters, which do not fit the
   * 15-character column.
   */
  lemma RawMobileOverflowsColumn(f: RegisterForm, userId: nat, decodedLength: Option<nat>)
    requires f.mobileNumber == "+" + "1" + (" (" + "555") + (") " + "123") + ("-" + "4567")
    ensures CheckMobile(Strip(f.mobileNumber)).None?
    ensures |RegisteredHotel(f, userId, decodedLength, AsTyped).mobileNumber| == 17 > MobileColumn
    ensures !RegisteredHotel(f, userId, decodedLength, AsTyped).FitsColumns()
  {
    var raw := f.mobileNumber;
    StripUnchanged(raw);
    SampleMobileCleans(raw);
    SampleDigitsAcceptable(CleanMobile(raw));
  }

  /** Corrected: the row of an acceptable registration that stores digits fits its columns. */
  lemma RegisteredHotelFits(f: RegisterForm, registered: set<string>, userId: nat, decodedLength: Option<nat>)
    requires RegistrationAcceptable(f, registered, decodedLength)
    ensures RegisteredHotel(f, userId, decodedLength, Digits).FitsColumns()
  {
  }

  /**
   * Lines 297-572: `register_view` on a POST; the program as written
   * passes `AsTyped`.
   */
  method Register(f: RegisterForm, registered: set<string>, usernames: set<string>, userId: nat,
                  decodedLength: Option<nat>, storage: MobileStorage) returns (reply: Response, account: Option<NewAccount>)
    ensures account.Some? <==> RegistrationAcceptable(f, registered, decodedLength)
    ensures reply == (if account.Some? then Ok else Fail(400))
    ensures account.Some? ==>
              var a := account.value;
              var email := NormalEmail(f.email);
              && a.email == email && !EmailInUse(registered, email)
              && (exists k :: FirstFree(FirstField(email, '@'), Folded(usernames), a.username, k))
              && a.password == f.password && a.firstName == Prefix(Strip(f.hotelName), FirstNameLength)
              && a.hotel == RegisteredHotel(f, userId, decodedLength, storage)
  {
    var failure := CheckRegistration(f, registered, decodedLength);
    if failure.Some? {
      return Fail(400), None;
    }
    var name := Strip(f.hotelName);
    var email := NormalEmail(f.email);
    var username, suffix := FindUsername(FirstField(email, '@'), usernames);
    var hotel := NewHotel(userId, name, StoreMobile(storage, Strip(f.mobileNumber)));
    var logo := CheckLogo(f.hotelLogo, decodedLength);
    if logo.Upload? {
      hotel := hotel.(logo := LogoPath(userId, "logo." + logo.ext));
    }
    account := Some(NewAccount(username, email, f.password, Prefix(name, FirstNameLength), hotel));
    reply := Ok;
  }

  // ---------------------------------------------------------------------
  // update_profile_view, action `update_profile` (lines 962-1103)
  // ---------------------------------------------------------------------

  datatype ProfileForm = ProfileForm(hotelLogo: string, hotelName: string, mobileNumber: string, removeLogo: bool)

  /** The entries of `updated_fields`. */
  datatype ProfileChange = NameChanged | MobileChanged | LogoRemoved | LogoUploaded

  datatype ProfileOutcome = ProfileOutcome(reply: Response, hotel: Hotel, changes: seq<ProfileChange>)

  /** The uploaded file name of line 1074: `logo_<user id>.<ext>`. */
  function UploadName(userId: nat, ext: string): string {
    "logo_" + NatToString(userId) + "." + ext
  }

  /** The logo branch is reached: no removal applies and logo data was sent. */
  predicate LogoConsidered(h: Hotel, f: ProfileForm) {
    !(f.removeLogo && h.logo != []) && f.hotelLogo != []
  }

  /**
   * Lines 988-993 and 1031-1035: a nonempty name or number that differs from the stored
   * one replaces it and is reported as changed.
   */
  function FieldChanges(h: Hotel, name: string, mobile: string): (r: (Hotel, seq<ProfileChange>))
    ensures r.0 == h.(hotelName := if name == [] then h.hotelName else name,
                      mobileNumber := if mobile == [] then h.mobileNumber else mobile)
    ensures r.1 == [] <==> r.0 == h
  {
    var renamed := name != [] && h.hotelName != name;
    var h1 := if renamed then h.(hotelName := name) else h;
    var renumbered := mobile != [] && h.mobileNumber != mobile;
    var h2 := if renumbered then h1.(mobileNumber := mobile) else h1;
    (h2, (if renamed then [NameChanged] else []) + (if renumbered then [MobileChanged] else []))
  }

  /**
   * Lines 962-1103: an empty name or number leaves that field alone;
   * removal wins over an upload only when there is a logo to remove. The
   * row is saved only when every check passed. The program as written
   * passes `AsTyped`.
   */
  function UpdateProfileStep(h: Hotel, f: ProfileForm, decodedLength: Option<nat>, storage: MobileStorage): (o: ProfileOutcome)
    ensures o.reply == Ok || o.reply == Fail(400)
    ensures o.reply.success <==>
              && (Strip(f.hotelName) == [] || IsValidHotelName(Strip(f.hotelName)))
              && (Strip(f.mobileNumber) == [] || CheckMobile(Strip(f.mobileNumber)).None?)
              && !(LogoConsidered(h, f) && CheckLogo(f.hotelLogo, decodedLength).Rejected?)
    ensures !o.reply.success ==> o.hotel == h && o.changes == []
    ensures o.hotel.userId == h.userId && o.hotel.isActive == h.isActive
    ensures o.reply.success ==>
              && o.hotel.hotelName == (if Strip(f.hotelName) == [] then h.hotelName else Strip(f.hotelName))
              && o.hotel.mobileNumber == (if Strip(f.mobileNumber) == [] then h.mobileNumber
                                          else StoreMobile(storage, Strip(f.mobileNumber)))
    ensures o.reply.success && f.removeLogo && h.logo != [] ==> o.hotel.logo == []
    ensures o.reply.success && LogoConsidered(h, f) && CheckLogo(f.hotelLogo, decodedLength).Upload? ==>
              o.hotel.logo == LogoPath(h.userId, UploadName(h.userId, CheckLogo(f.hotelLogo, decodedLength).ext))
    ensures !(o.reply.success && f.removeLogo && h.logo != []) &&
            !(o.reply.success && LogoConsidered(h, f) && CheckLogo(f.hotelLogo, decodedLength).Upload?) ==>
              o.hotel.logo == h.logo
  {
    var name := Strip(f.hotelName);
    var mobile := Strip(f.mobileNumber);
    if name != [] && CheckHotelName(name).Some? then ProfileOutcome(Fail(400), h, [])
    else if mobile != [] && CheckMobile(mobile).Some? then ProfileOutcome(Fail(400), h, [])
    else
      var fields := FieldChanges(h, name, StoreMobile(storage, mobile));
      var h2 := fields.0;
      var c := fields.1;
      if f.removeLogo && h.logo != [] then ProfileOutcome(Ok, h2.(logo := []), c + [LogoRemoved])
      else if f.hotelLogo == [] then ProfileOutcome(Ok, h2, c)
      else match CheckLogo(f.hotelLogo, decodedLength)
        case NoUpload => ProfileOutcome(Ok, h2, c)
        case Rejected(_) => ProfileOutcome(Fail(400), h, [])
        case Upload(ext) =>
          ProfileOutcome(Ok, h2.(logo := LogoPath(h.userId, UploadName(h.userId, ext))), c + [LogoUploaded])
  }

  /** "No changes were made" is reported only when the row is indeed unchanged. */
  lemma NoChangesMeansUnchanged(h: Hotel, f: ProfileForm, decodedLength: Option<nat>, storage: MobileStorage)
    ensures var o := UpdateProfileStep(h, f, decodedLength, storage);
            o.changes == [] ==> o.hotel == h
  {
  }

  /**
   * As written: a row within its column bounds leaves them once the
   * accepted number `+1 (555) 123-4567` is stored as typed.
   */
  lemma ProfileMobileOverflowsColumn(h: Hotel, f: ProfileForm, decodedLength: Option<nat>)
    requires h.FitsColumns()
    requires f.hotelName == [] && f.hotelLogo == [] && !f.removeLogo
    requires f.mobileNumber == "+" + "1" + (" (" + "555") + (") " + "123") + ("-" + "4567")
    ensures UpdateProfileStep(h, f, decodedLength, AsTyped).reply.success
    ensures !UpdateProfileStep(h, f, decodedLength, AsTyped).hotel.FitsColumns()
  {
    var raw := f.mobileNumber;
    StripUnchanged(raw);
    SampleMobileCleans(raw);
    SampleDigitsAcceptable(CleanMobile(raw));
    assert Strip(f.hotelName) == [];
  }

  /** Corrected: storing digits, a row within its column bounds stays within them. */
  lemma UpdateProfileKeepsColumns(h: Hotel, f: ProfileForm, decodedLength: Option<nat>)
    requires h.FitsColumns()
    ensures UpdateProfileStep(h, f, decodedLength, Digits).hotel.FitsColumns()
  {
  }

  /** Sending the same form again, without a removal, changes nothing more. */
  lemma UpdateProfileIdempotent(h: Hotel, f: ProfileForm, decodedLength: Option<nat>, storage: MobileStorage)
    requires !f.removeLogo
    ensures var h1 := UpdateProfileStep(h, f, decodedLength, storage).hotel;
            UpdateProfileStep(h1, f, decodedLength, storage).hotel == h1
  {
  }

  // ---------------------------------------------------------------------
  // update_profile_view, action `update_email` (lines 1106-1165)
  // ---------------------------------------------------------------------

  datatype EmailOutcome = EmailOutcome(reply: Response, email: string)

  /**
   * `currentEmail` is the user's address, `others` the addresses of every
   * other user, `passwordOk` what `check_password` says.
   */
  function UpdateEmailStep(currentEmail: string, rawNewEmail: string, password: string, passwordOk: bool,
                           others: set<string>): (o: EmailOutcome)
    ensures o.reply.success <==> o.reply == Ok
    ensures o.reply.status in {200, 400, 401}
    ensures o.reply.status == 401 <==> password != [] && !passwordOk
    ensures o.reply.success <==>
              var e := NormalEmail(rawNewEmail);
              && password != [] && passwordOk
              && MatchesEmailPattern(e) && |e| <= MaxEmailLength
              && e != Lower(currentEmail) && !EmailInUse(others, e)
    ensures o.reply.success ==> o.email == NormalEmail(rawNewEmail)
    ensures !o.reply.success ==> o.email == currentEmail
  {
    var e := NormalEmail(rawNewEmail);
    if password == [] then EmailOutcome(Fail(400), currentEmail)
    else if !passwordOk then EmailOutcome(Fail(401), currentEmail)
    else if CheckEmail(e).Some? then EmailOutcome(Fail(400), currentEmail)
    else if |e| > MaxEmailLength then EmailOutcome(Fail(400), currentEmail)
    else if e == Lower(currentEmail) then EmailOutcome(Fail(400), currentEmail)
    else if EmailInUse(others, e) then EmailOutcome(Fail(400), currentEmail)
    else EmailOutcome(Ok, e)
  }

  /** No two users share an address, ignoring case. */
  predicate DistinctAddresses(others: set<string>, mine: string) {
    forall e :: e in others ==> Lower(e) != Lower(mine)
  }

  /** Changing an address keeps the addresses of all users distinct. */
  lemma UpdateEmailKeepsDistinct(currentEmail: string, rawNewEmail: string, password: string, passwordOk: bool,
                                 others: set<string>)
    requires DistinctAddresses(others, currentEmail)
    ensures DistinctAddresses(others, UpdateEmailStep(currentEmail, rawNewEmail, password, passwordOk, others).email)
  {
  }

  // ---------------------------------------------------------------------
  // update_profile_view, action `update_password` (lines 1168-1280)
  // ---------------------------------------------------------------------

  /** `hotelName` is the stored name of the user's hotel. */
  function UpdatePasswordStep(currentPassword: string, newPassword: string, confirmPassword: string, passwordOk: bool,
                              hotelName: string): (reply: Response)
    ensures reply.success <==> reply == Ok
    ensures reply.status in {200, 400, 401}
    ensures reply.status == 401 <==> currentPassword != [] && !passwordOk
    ensures reply.success <==>
              && currentPassword != [] && passwordOk
              && IsStrongPassword(newPassword) && !IsCommonPassword(newPassword)
              && !ContainsHotelName(newPassword, hotelName)
              && newPassword != currentPassword && confirmPassword == newPassword
  {
    if currentPassword == [] then Fail(400)
    else if !passwordOk then Fail(401)
    else if CheckPasswordPolicy(newPassword, hotelName).Some? then Fail(400)
    else if currentPassword == newPassword then Fail(400)
    else if confirmPassword == [] || newPassword != confirmPassword then Fail(400)
    else Ok
  }
}
