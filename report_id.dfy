/** Report-ID normalisation at the front of `get_wcl_data` (src/app.py):
    trim, cut a report URL down to its ID, validate the character set. */
module ReportId {
  import opened Wrappers
  import opened Text

  datatype IdError =
    | EmptyReportId            // "Report ID cannot be empty"
    | InvalidUrl               // "Invalid report URL format"
    | InvalidFormat(id: string) // "Invalid report ID format: <id>"

  const UrlMarker: string := "warcraftlogs.com/reports/"
  const ReportsSep: string := "reports/"

  /** `str.isalnum` on one character, restricted to ASCII letters and digits. */
  predicate IsAlnum(c: char)
  {
    'a' <= c <= 'z' || 'A' <= c <= 'Z' || '0' <= c <= '9'
  }

  /** `id.replace('-', '').replace('_', '').isalnum()`. */
  predicate ValidIdFormat(id: string)
  {
    var core := RemoveChar(RemoveChar(id, '-'), '_');
    |core| > 0 && forall i :: 0 <= i < |core| ==> IsAlnum(core[i])
  }

  /** `id.split("reports/")[1].split("#")[0].split("?")[0]`. */
  function ExtractFromUrl(t: string): Result<string, IdError>
  {
    match SecondPiece(t, ReportsSep)
    case None => Err(InvalidUrl)
    case Some(piece) => Ok(Before(Before(piece, "#"), "?"))
  }

  /** The report ID `get_wcl_data` goes on to fetch, or the error it returns. */
  function NormaliseReportId(raw: string): Result<string, IdError>
  {
    var t := Strip(raw);
    if t == [] then Err(EmptyReportId)
    else
      var id :- Candidate(t);
      if ValidIdFormat(id) then Ok(id) else Err(InvalidFormat(id))
  }

  /** The ID before validation: cut from a URL, or the trimmed input itself. */
  function Candidate(t: string): Result<string, IdError>
  {
    if Contains(t, UrlMarker) then ExtractFromUrl(t) else Ok(t)
  }

  lemma AllSpaceStripsToEmpty(s: string)
    ensures Strip(s) == [] <==> forall i :: 0 <= i < |s| ==> IsSpace(s[i])
  {
    StripSpec(s);
  }

  /** Blank or whitespace-only input, and only that, is refused as empty. */
  lemma BlankIsEmptyError(raw: string)
    ensures NormaliseReportId(raw) == Err(EmptyReportId) <==> forall i :: 0 <= i < |raw| ==> IsSpace(raw[i])
  {
    AllSpaceStripsToEmpty(raw);
  }

  /** Text containing the URL marker contains "reports/", its tail. */
  lemma MarkerHasSep(t: string)
    requires Contains(t, UrlMarker)
    ensures Contains(t, ReportsSep)
  {
    ContainsTail(t, UrlMarker, 17);
    assert UrlMarker[17..] == ReportsSep;
  }

  /** The IndexError branch is unreachable: text containing the URL marker
      always contains "reports/". */
  lemma InvalidUrlUnreachable(raw: string)
    ensures NormaliseReportId(raw) != Err(InvalidUrl)
  {
    var t := Strip(raw);
    if t != [] && Contains(t, UrlMarker) {
      MarkerHasSep(t);
    }
  }

  lemma BeforeExcludes(s: string, c: char)
    ensures forall i :: 0 <= i < |Before(s, [c])| ==> Before(s, [c])[i] != c
    ensures Before(s, [c]) == s[..|Before(s, [c])|]
  {
    var r := Before(s, [c]);
    forall i | 0 <= i < |r| ensures r[i] != c {
      assert !OccursAt(s, [c], i);
      assert s[i..i + 1] == [s[i]];
    }
  }

  /** The text before a separator stops at the end of the input or where
      the separator occurs. */
  lemma BeforeStops(s: string, sep: string)
    ensures Before(s, sep) == s || OccursAt(s, sep, |Before(s, sep)|)
  {
  }

  /** Cutting a text at the first "reports/", then '#', then '?' leaves a
      prefix free of '#' and '?' that ends at the end of the text or at one
      of those three cut points. */
  lemma CutShape(s: string)
    ensures var id := Before(Before(Before(s, ReportsSep), "#"), "?");
      && |id| <= |s| && id == s[..|id|]
      && (forall i :: 0 <= i < |id| ==> id[i] != '#' && id[i] != '?')
      && (|id| == |s| || s[|id|] == '#' || s[|id|] == '?' || OccursAt(s, ReportsSep, |id|))
      && (forall i :: 0 <= i < |id| ==> !OccursAt(s, ReportsSep, i))
  {
    var p1 := Before(s, ReportsSep);
    var p2 := Before(p1, "#");
    var id := Before(p2, "?");
    BeforeExcludes(p1, '#');
    BeforeExcludes(p2, '?');
    assert id == s[..|id|] by {
      assert id == p2[..|id|];
      assert p2 == p1[..|p2|];
    }
    forall i | 0 <= i < |id| ensures id[i] != '#' {
      assert id[i] == p2[i];
    }
    BeforeStops(p2, "?");
    BeforeStops(p1, "#");
    BeforeStops(s, ReportsSep);
    if id != p2 {
      assert p2[|id|] == '?';
      assert s[|id|] == p2[|id|];
    } else if p2 != p1 {
      assert p1[|p2|] == '#';
      assert s[|id|] == p1[|p2|];
    }
  }

  /** The ID cut from a URL is the three cuts applied to the text after the
      first "reports/". */
  lemma ExtractIsCut(t: string)
    requires Contains(t, ReportsSep)
    ensures var j := IndexOf(t, ReportsSep).value + |ReportsSep|;
      j <= |t| && ExtractFromUrl(t) == Ok(Before(Before(Before(t[j..], ReportsSep), "#"), "?"))
  {
  }

  /** Facts about a prefix of `t[j..]` carried back to positions of `t`. */
  lemma LiftPrefix(t: string, j: nat, id: string)
    requires j <= |t| && |id| <= |t| - j && id == t[j..][..|id|]
    requires |id| == |t| - j || t[j..][|id|] == '#' || t[j..][|id|] == '?' || OccursAt(t[j..], ReportsSep, |id|)
    requires forall i :: 0 <= i < |id| ==> !OccursAt(t[j..], ReportsSep, i)
    ensures j + |id| <= |t| && id == t[j..j + |id|]
    ensures j + |id| == |t| || t[j + |id|] == '#' || t[j + |id|] == '?' || OccursAt(t, ReportsSep, j + |id|)
    ensures forall k :: j <= k < j + |id| ==> !OccursAt(t, ReportsSep, k)
  {
    forall k | j <= k < j + |id| && k + |ReportsSep| <= |t| ensures !OccursAt(t, ReportsSep, k) {
      assert !OccursAt(t[j..], ReportsSep, k - j);
      assert t[j..][k - j..k - j + |ReportsSep|] == t[k..k + |ReportsSep|];
    }
    if j + |id| < |t| && OccursAt(t[j..], ReportsSep, |id|) {
      assert t[j..][|id|..|id| + |ReportsSep|] == t[j + |id|..j + |id| + |ReportsSep|];
    }
  }

  /** From a URL, the ID is the text after the first "reports/", cut at the
      first '#', '?' or further "reports/", whichever comes first. */
  lemma UrlIdShape(t: string)
    requires Contains(t, ReportsSep)
    ensures ExtractFromUrl(t).Ok?
    ensures var id := ExtractFromUrl(t).value;
      var j := IndexOf(t, ReportsSep).value + |ReportsSep|;
      && j + |id| <= |t| && id == t[j..j + |id|]
      && (forall i :: 0 <= i < |id| ==> id[i] != '#' && id[i] != '?')
      && (j + |id| == |t| || t[j + |id|] == '#' || t[j + |id|] == '?' || OccursAt(t, ReportsSep, j + |id|))
      && (forall k :: j <= k < j + |id| ==> !OccursAt(t, ReportsSep, k))
  {
    ExtractIsCut(t);
    var j := IndexOf(t, ReportsSep).value + |ReportsSep|;
    var id := ExtractFromUrl(t).value;
    assert id == Before(Before(Before(t[j..], ReportsSep), "#"), "?");
    CutShape(t[j..]);
    LiftPrefix(t, j, id);
  }

  /** The candidate ID is the input itself, or, from a URL, the text after
      the first "reports/" up to the first '#', '?' or further "reports/". */
  lemma CandidateShape(t: string)
    ensures Candidate(t).Ok?
    ensures var id := Candidate(t).value;
      && (!Contains(t, UrlMarker) ==> id == t)
      && (Contains(t, UrlMarker) ==>
            var j := IndexOf(t, ReportsSep).value + |ReportsSep|;
            && j + |id| <= |t| && id == t[j..j + |id|]
            && (forall i :: 0 <= i < |id| ==> id[i] != '#' && id[i] != '?')
            && (j + |id| == |t| || t[j + |id|] == '#' || t[j + |id|] == '?' || OccursAt(t, ReportsSep, j + |id|))
            && (forall k :: j <= k < j + |id| ==> !OccursAt(t, ReportsSep, k)))
  {
    if Contains(t, UrlMarker) {
      MarkerHasSep(t);
      UrlIdShape(t);
      assert Candidate(t) == ExtractFromUrl(t);
    } else {
      assert Candidate(t) == Ok(t);
    }
  }

  /** Characters of a valid ID are letters, digits, '-' or '_'. */
  lemma ValidIdChars(id: string)
    requires ValidIdFormat(id)
    ensures forall i :: 0 <= i < |id| ==> IsAlnum(id[i]) || id[i] == '-' || id[i] == '_'
  {
    var core := RemoveChar(RemoveChar(id, '-'), '_');
    forall i | 0 <= i < |id| && id[i] != '-' && id[i] != '_' ensures IsAlnum(id[i]) {
      var c := id[i];
      assert c in RemoveChar(id, '-');
      var k :| 0 <= k < |RemoveChar(id, '-')| && RemoveChar(id, '-')[k] == c;
      assert c in core;
    }
  }

  /** The character-set check read character by character: every character
      is a letter, a digit, '-' or '_', and at least one is a letter or digit. */
  lemma ValidIdFormatMeans(id: string)
    ensures ValidIdFormat(id) <==>
      && (forall i :: 0 <= i < |id| ==> IsAlnum(id[i]) || id[i] == '-' || id[i] == '_')
      && (exists i :: 0 <= i < |id| && IsAlnum(id[i]))
  {
    var once := RemoveChar(id, '-');
    var core := RemoveChar(once, '_');
    if ValidIdFormat(id) {
      ValidIdChars(id);
      assert core[0] in once;
      assert core[0] in id;
      var i :| 0 <= i < |id| && id[i] == core[0];
      assert IsAlnum(id[i]);
    }
    if && (forall i :: 0 <= i < |id| ==> IsAlnum(id[i]) || id[i] == '-' || id[i] == '_')
       && (exists i :: 0 <= i < |id| && IsAlnum(id[i]))
    {
      var i :| 0 <= i < |id| && IsAlnum(id[i]);
      assert id[i] in once;
      assert id[i] in core;
      forall m | 0 <= m < |core| ensures IsAlnum(core[m]) {
        var x := core[m];
        assert x in once;
        assert x in id;
        var b :| 0 <= b < |id| && id[b] == x;
      }
    }
  }

  /** The whole normalisation: the input is accepted exactly when it is not
      blank and the ID cut from it consists of letters, digits, '-' and '_'
      with at least one letter or digit; the accepted value is that ID, and
      any other non-blank input is refused with that ID in the message. */
  lemma AcceptedMeans(raw: string)
    ensures Candidate(Strip(raw)).Ok?
    ensures NormaliseReportId(raw).Ok? <==>
      && Strip(raw) != []
      && var id := Candidate(Strip(raw)).value;
        && (forall i :: 0 <= i < |id| ==> IsAlnum(id[i]) || id[i] == '-' || id[i] == '_')
        && (exists i :: 0 <= i < |id| && IsAlnum(id[i]))
    ensures NormaliseReportId(raw).Ok? ==> NormaliseReportId(raw).value == Candidate(Strip(raw)).value
    ensures Strip(raw) != [] && NormaliseReportId(raw).Err? ==>
      NormaliseReportId(raw) == Err(InvalidFormat(Candidate(Strip(raw)).value))
  {
    CandidateShape(Strip(raw));
    ValidIdFormatMeans(Candidate(Strip(raw)).value);
  }

  /** Text made of ID characters cannot hold the URL marker, which has '.'. */
  lemma NoMarkerInIdChars(id: string)
    requires forall i :: 0 <= i < |id| ==> IsAlnum(id[i]) || id[i] == '-' || id[i] == '_'
    ensures !Contains(id, UrlMarker)
  {
    forall k | 0 <= k <= |id| ensures !OccursAt(id, UrlMarker, k) {
      if k + |UrlMarker| <= |id| {
        assert id[k..k + |UrlMarker|][12] == id[k + 12] != '.';
      }
    }
  }

  /** A valid ID is left as it is. */
  lemma ValidIdIsFixedPoint(id: string)
    requires ValidIdFormat(id)
    ensures NormaliseReportId(id) == Ok(id)
  {
    ValidIdChars(id);
    StripNoSpace(id);
    NoMarkerInIdChars(id);
    var core := RemoveChar(RemoveChar(id, '-'), '_');
    assert core[0] in RemoveChar(id, '-');
    assert core[0] in id;
    assert Candidate(id) == Ok(id);
  }

  /** Normalising an accepted ID again gives it back unchanged. */
  lemma NormaliseIdempotent(raw: string)
    requires NormaliseReportId(raw).Ok?
    ensures NormaliseReportId(NormaliseReportId(raw).value) == NormaliseReportId(raw)
  {
    AcceptedMeans(raw);
    ValidIdFormatMeans(NormaliseReportId(raw).value);
    ValidIdIsFixedPoint(NormaliseReportId(raw).value);
  }
}
