/*
 * The Hotel profile of accounts/models.py: one record per owner account,
 * with the upload path of its logo, its display string and its logo URL.
 */
module HotelModel {
  import opened Text

  /** `os.path.join('hotel_logos', 'hotel_')`, the fixed start of every logo path. */
  const LogoPrefix := "hotel_logos/hotel_"
  const LogoInfix := "_logo."
  const MediaUrl := "/media/"
  const HotelNameColumn := 200
  const MobileColumn := 15

  /**
   * A hotel row. `logo` is the stored file name of the image field; the
   * empty name is how an unset field reads (and is falsy in Python).
   */
  datatype Hotel = Hotel(userId: nat, hotelName: string, logo: string, mobileNumber: string, isActive: bool)
  {
    /** The CharField bounds of `hotel_name` and `mobile_number`. */
    predicate FitsColumns() {
      |hotelName| <= HotelNameColumn && |mobileNumber| <= MobileColumn
    }

    /** `__str__`: the hotel's display name. */
    function ToString(): (r: string)
      ensures r == hotelName
      ensures FitsColumns() ==> |r| <= HotelNameColumn
    {
      hotelName
    }

    /** `get_logo_url`: the media URL of the logo, None exactly when no logo is set. */
    function LogoUrl(): (r: Option<string>)
      ensures r.None? <==> logo == []
      ensures r.Some? ==> |r.value| == |MediaUrl| + |logo|
      ensures r.Some? ==> r.value[..|MediaUrl|] == MediaUrl && r.value[|MediaUrl|..] == logo
    {
      if logo != [] then Some(MediaUrl + logo) else None
    }
  }

  /** A new row as `Hotel.objects.create` makes it: active by default, no logo. */
  function NewHotel(userId: nat, hotelName: string, mobileNumber: string): (h: Hotel)
    ensures h.isActive && h.logo == [] && h.LogoUrl().None?
    ensures h.userId == userId && h.hotelName == hotelName && h.mobileNumber == mobileNumber
    ensures |hotelName| <= HotelNameColumn && |mobileNumber| <= MobileColumn ==> h.FitsColumns()
  {
    Hotel(userId, hotelName, [], mobileNumber, true)
  }

  /** `filename.split('.')[-1]`: the text after the last dot, or the whole name. */
  function FileExtension(filename: string): (ext: string)
    ensures '.' !in ext && |ext| <= |filename| && ext == filename[|filename| - |ext|..]
    ensures ext == filename || filename[|filename| - |ext| - 1] == '.'
  {
    LastField(filename, '.')
  }

  /** `hotel_logo_path`: every upload of one user with one extension lands on one name. */
  function LogoPath(userId: nat, filename: string): (path: string)
    ensures |LogoPrefix| < |path| && path[..|LogoPrefix|] == LogoPrefix
  {
    LogoPrefix + (NatToString(userId) + (LogoInfix + FileExtension(filename)))
  }

  /** Two digit runs each followed by a non-digit cannot differ inside one string. */
  lemma {:induction false} DigitRunUnique(d1: string, r1: string, d2: string, r2: string)
    requires AllDigits(d1) && AllDigits(d2)
    requires r1 != [] && r2 != [] && !IsDigit(r1[0]) && !IsDigit(r2[0])
    requires d1 + r1 == d2 + r2
    ensures d1 == d2
  {
    var x := d1 + r1;
    assert x[0] == if d1 == [] then r1[0] else d1[0];
    assert x[0] == if d2 == [] then r2[0] else d2[0];
    if d1 != [] && d2 != [] {
      assert d1[1..] + r1 == (d1 + r1)[1..] == (d2 + r2)[1..] == d2[1..] + r2;
      DigitRunUnique(d1[1..], r1, d2[1..], r2);
    }
  }

  lemma LogoPathTail(u: nat, f: string)
    ensures LogoPath(u, f)[|LogoPrefix|..] == NatToString(u) + (LogoInfix + FileExtension(f))
  {
  }

  lemma SuffixAfter(a: string, b: string, c: string)
    ensures (a + (b + c))[|a| + |b|..] == c
  {
  }

  /** Logo paths collide exactly when the user and the extension agree. */
  lemma LogoPathCollision(u1: nat, f1: string, u2: nat, f2: string)
    ensures LogoPath(u1, f1) == LogoPath(u2, f2) <==> u1 == u2 && FileExtension(f1) == FileExtension(f2)
  {
    if LogoPath(u1, f1) == LogoPath(u2, f2) {
      var d1, d2 := NatToString(u1), NatToString(u2);
      var e1, e2 := FileExtension(f1), FileExtension(f2);
      LogoPathTail(u1, f1);
      LogoPathTail(u2, f2);
      DigitRunUnique(d1, LogoInfix + e1, d2, LogoInfix + e2);
      NatToStringInjective(u1, u2);
      SuffixAfter(d1, LogoInfix, e1);
      SuffixAfter(d2, LogoInfix, e2);
    }
  }
}
