/** The dossier page's helpers: the `DOS-YYYYMM-NNN` reference built when a dossier
    is created and the colour of a status chip. */
module Dossiers {
  import opened Common
  import opened Text

  // ----- id_dossier -----

  /** `String(n).padStart(width, '0')`. */
  function ZeroPadded(n: nat, width: nat): string {
    PadStart(NatToString(n), width, '0')
  }

  /** `DOS-${year}${month}-${random}` with `month` the zero-padded `getMonth() + 1`
      and `random` the zero-padded `Math.floor(Math.random() * 1000)`. */
  function DossierId(year: nat, monthIndex: nat, random: nat): string {
    "DOS-" + NatToString(year) + ZeroPadded(monthIndex + 1, 2) + "-" + ZeroPadded(random, 3)
  }

  /** A number below 10^width padded to `width` digits: exactly `width` digits that
      denote the number. */
  lemma ZeroPaddedDigits(n: nat, width: nat)
    requires width >= 1 && n < Pow10(width)
    ensures |ZeroPadded(n, width)| == width
    ensures AllDigits(ZeroPadded(n, width)) && DigitsValue(ZeroPadded(n, width)) == n
  {
    NatToStringLength(n, width);
    NatToStringRoundTrip(n);
    PaddedValue(NatToString(n), width);
  }

  /** Padding a digit string with zeros keeps it a digit string of the same value. */
  lemma PaddedValue(s: string, width: nat)
    requires AllDigits(s) && |s| <= width
    ensures |PadStart(s, width, '0')| == width
    ensures AllDigits(PadStart(s, width, '0')) && DigitsValue(PadStart(s, width, '0')) == DigitsValue(s)
  {
    if |s| < width {
      LeadingZerosValue(width - |s|, s);
    }
  }

  /** The month segment is two digits from `01` to `12`. */
  lemma MonthSegment(monthIndex: nat)
    requires monthIndex < 12
    ensures |ZeroPadded(monthIndex + 1, 2)| == 2 && AllDigits(ZeroPadded(monthIndex + 1, 2))
    ensures DigitsValue(ZeroPadded(monthIndex + 1, 2)) == monthIndex + 1
  {
    assert Pow10(2) == 100;
    ZeroPaddedDigits(monthIndex + 1, 2);
  }

  /** The random segment is three digits. */
  lemma RandomSegment(random: nat)
    requires random < 1000
    ensures |ZeroPadded(random, 3)| == 3 && AllDigits(ZeroPadded(random, 3))
    ensures DigitsValue(ZeroPadded(random, 3)) == random
  {
    assert Pow10(3) == 1000;
    ZeroPaddedDigits(random, 3);
  }

  /** The layout of the reference: `DOS-`, the year, two month digits, `-`, three
      random digits. */
  lemma DossierIdLayout(year: nat, monthIndex: nat, random: nat)
    requires monthIndex < 12 && random < 1000
    ensures var id := DossierId(year, monthIndex, random); var y := |NatToString(year)|;
      && |id| == y + 10
      && id[..4] == "DOS-" && id[4..4 + y] == NatToString(year)
      && id[4 + y..6 + y] == ZeroPadded(monthIndex + 1, 2)
      && id[6 + y] == '-' && id[7 + y..] == ZeroPadded(random, 3)
  {
    MonthLength(monthIndex);
    RandomLength(random);
    var id := DossierId(year, monthIndex, random);
    LayoutSlices(id, NatToString(year), ZeroPadded(monthIndex + 1, 2), ZeroPadded(random, 3));
  }

  /** The padded month is two characters. */
  lemma MonthLength(monthIndex: nat)
    requires monthIndex < 12
    ensures |ZeroPadded(monthIndex + 1, 2)| == 2
  {
    assert Pow10(2) == 100;
    NatToStringLength(monthIndex + 1, 2);
  }

  /** The padded random number is three characters. */
  lemma RandomLength(random: nat)
    requires random < 1000
    ensures |ZeroPadded(random, 3)| == 3
  {
    assert Pow10(3) == 1000;
    NatToStringLength(random, 3);
  }

  /** Where the pieces of `DOS-` + year + month + `-` + random sit. */
  lemma Layout(year: string, month: string, random: string)
    requires |month| == 2 && |random| == 3
    ensures var id := "DOS-" + year + month + "-" + random; var y := |year|;
      && |id| == y + 10
      && id[..4] == "DOS-" && id[4..4 + y] == year && id[4 + y..6 + y] == month
      && id[6 + y] == '-' && id[7 + y..] == random
  {
    var head := "DOS-" + year;
    var id := head + month + "-" + random;
    assert head[..4] == "DOS-" && head[4..] == year;
    assert id == head + (month + "-" + random);
    assert id[..|head|] == head && id[|head|..] == month + "-" + random;
    assert id[..4] == head[..4];
    assert id[4..|head|] == head[4..];
  }

  /** With a four-digit year the reference is 14 characters. */
  lemma DossierIdLength(year: nat, monthIndex: nat, random: nat)
    requires monthIndex < 12 && random < 1000 && 1000 <= year <= 9999
    ensures |DossierId(year, monthIndex, random)| == 14
  {
    DossierIdLayout(year, monthIndex, random);
    NatToStringLength(year, 4);
    NatToStringLength(year, 3);
    assert Pow10(3) == 1000 && Pow10(4) == 10000;
  }

  /** Reads a reference back from its end: three random digits after the last `-`,
      two month digits before it, and the year between them and `DOS-`. */
  function ParseDossierId(id: string): Option<(nat, nat, nat)> {
    if |id| < 11 || id[..4] != "DOS-" || id[|id| - 4] != '-' then None
    else ParsePieces(id[4..|id| - 6], id[|id| - 6..|id| - 4], id[|id| - 3..])
  }

  /** The values of the year, month and random digit strings of a reference. */
  function ParsePieces(year: string, month: string, random: string): Option<(nat, nat, nat)> {
    if AllDigits(year) && AllDigits(month) && AllDigits(random) && DigitsValue(month) >= 1 then
      Some((DigitsValue(year), DigitsValue(month) - 1, DigitsValue(random)))
    else None
  }

  /** Year, month and random value can be recovered from the reference. */
  lemma DossierIdRoundTrip(year: nat, monthIndex: nat, random: nat)
    requires monthIndex < 12 && random < 1000
    ensures ParseDossierId(DossierId(year, monthIndex, random)) == Some((year, monthIndex, random))
  {
    MonthSegment(monthIndex);
    RandomSegment(random);
    NatToStringRoundTrip(year);
    ParseLayout(NatToString(year), ZeroPadded(monthIndex + 1, 2), ZeroPadded(random, 3));
  }

  /** Any reference laid out from digit strings reads back as their values. */
  lemma ParseLayout(year: string, month: string, random: string)
    requires |year| >= 1 && AllDigits(year)
    requires |month| == 2 && AllDigits(month) && DigitsValue(month) >= 1
    requires |random| == 3 && AllDigits(random)
    ensures ParseDossierId("DOS-" + year + month + "-" + random)
      == Some((DigitsValue(year), DigitsValue(month) - 1, DigitsValue(random)))
  {
    var id := "DOS-" + year + month + "-" + random;
    ReadSlices(id, year, month, random);
    PiecesValue(year, month, random);
  }

  /** Digit strings read back as their values. */
  lemma PiecesValue(year: string, month: string, random: string)
    requires AllDigits(year) && AllDigits(month) && AllDigits(random) && DigitsValue(month) >= 1
    ensures ParsePieces(year, month, random)
      == Some((DigitsValue(year), DigitsValue(month) - 1, DigitsValue(random)))
  {
  }

  /** A laid-out reference reads back piece by piece. */
  lemma ReadSlices(id: string, year: string, month: string, random: string)
    requires |year| >= 1 && |month| == 2 && |random| == 3
    requires id == "DOS-" + year + month + "-" + random
    ensures ParseDossierId(id) == ParsePieces(year, month, random)
  {
    LayoutSlices(id, year, month, random);
  }

  /** The slices of a laid-out reference are its pieces. */
  lemma LayoutSlices(id: string, year: string, month: string, random: string)
    requires |month| == 2 && |random| == 3
    requires id == "DOS-" + year + month + "-" + random
    ensures |id| == |year| + 10 && id[..4] == "DOS-" && id[|id| - 4] == '-'
    ensures id[4..|id| - 6] == year && id[|id| - 6..|id| - 4] == month && id[|id| - 3..] == random
  {
    Layout(year, month, random);
  }

  // ----- getStatusColor -----

  /** `getStatusColor`: `actif`, `en_cours` and `fermé` have a chip colour of their own. */
  function StatusColor(status: string): string {
    if status == "actif" then "success"
    else if status == "en_cours" then "warning"
    else if status == "ferm\U{E9}" then "error"
    else "default"
  }

  /** Exactly the three known statuses get a colour other than the default, and no
      two of them share one. */
  lemma StatusColorCases(a: string, b: string)
    ensures StatusColor(a) != "default" <==> a == "actif" || a == "en_cours" || a == "ferm\U{E9}"
    ensures StatusColor(a) == StatusColor(b) && StatusColor(a) != "default" ==> a == b
    ensures StatusColor("actif") == "success" && StatusColor("en_cours") == "warning"
    ensures StatusColor("ferm\U{E9}") == "error"
  {
  }

}

/** The dossier page's filter, which keeps the dossiers of the client named in the
    page's `client` query parameter. */
module DossierFilter {
  import opened Common
  import opened Text

  /** A JSON value as the page receives it. */
  datatype JsValue = JsNull | JsNumber(n: int) | JsString(s: string)

  /** A dossier row of `GET /dossiers`. `client_id` may arrive as a number, as `null`
      or, for a `bigint` column read by node-postgres, as a string; which one depends on
      a schema this model does not include. */
  datatype Dossier = Dossier(clientId: JsValue, reference: string, status: string)

  /** `if (clientId)`: the query parameter is present and not empty. */
  predicate Filtering(clientId: Option<string>) {
    clientId.Some? && clientId.value != ""
  }

  /** `d.client_id === clientId` with `clientId` a string. */
  predicate StrictlyEqual(v: JsValue, s: string) {
    v == JsString(s)
  }

  /** The filter as the page writes it. */
  function FilterAsWritten(ds: seq<Dossier>, clientId: Option<string>): (r: seq<Dossier>)
    ensures !Filtering(clientId) ==> r == ds
    ensures multiset(r) <= multiset(ds)
    ensures forall d :: d in r ==> d in ds
  {
    if !Filtering(clientId) then ds else KeepStrict(ds, clientId.value)
  }

  function KeepStrict(ds: seq<Dossier>, s: string): (r: seq<Dossier>)
    ensures multiset(r) <= multiset(ds)
    ensures forall d :: d in r <==> d in ds && StrictlyEqual(d.clientId, s)
  {
    if ds == [] then []
    else
      assert ds == [ds[0]] + ds[1..];
      (if StrictlyEqual(ds[0].clientId, s) then [ds[0]] else []) + KeepStrict(ds[1..], s)
  }

  /** The filter as written keeps the order of the list: filtering a concatenation
      filters each part. */
  lemma {:induction false} KeepStrictConcat(a: seq<Dossier>, b: seq<Dossier>, s: string)
    ensures KeepStrict(a + b, s) == KeepStrict(a, s) + KeepStrict(b, s)
    decreases |a|
  {
    if a == [] {
      assert a + b == b;
    } else {
      assert (a + b)[1..] == a[1..] + b;
      KeepStrictConcat(a[1..], b, s);
    }
  }

  /** A number is never strictly equal to a string: when no row carries a string
      `client_id`, choosing a client always leaves an empty list. */
  lemma {:induction false} FilterAsWrittenIsEmpty(ds: seq<Dossier>, clientId: Option<string>)
    requires forall i :: 0 <= i < |ds| ==> !ds[i].clientId.JsString?
    requires Filtering(clientId)
    ensures FilterAsWritten(ds, clientId) == []
    decreases |ds|
  {
    if ds != [] {
      assert !ds[0].clientId.JsString?;
      FilterAsWrittenIsEmpty(ds[1..], clientId);
    }
  }

  /** The counterexample: client 7's dossier is dropped when the page is opened with
      `?client=7`. */
  lemma FilterAsWrittenDropsMatch()
    ensures FilterAsWritten([Dossier(JsNumber(7), "DOS-202401-001", "en_cours")], Some("7")) == []
  {
    FilterAsWrittenIsEmpty([Dossier(JsNumber(7), "DOS-202401-001", "en_cours")], Some("7"));
  }

  /** `String(v)` for the values `client_id` can hold. */
  function ToJsString(v: JsValue): (r: string)
    ensures v.JsNumber? ==> |r| >= 1 && (r[0] == '-' || IsDigit(r[0]))
    ensures v.JsNumber? ==> r != "null"
  {
    match v
    case JsNull => "null"
    case JsNumber(n) =>
      assert n >= 0 ==> IsDigit(NatToString(n)[0]);
      assert "null"[0] == 'n';
      IntToString(n)
    case JsString(s) => s
  }

  /** The filter as intended: `String(d.client_id) === clientId`. */
  function FilterFixed(ds: seq<Dossier>, clientId: Option<string>): (r: seq<Dossier>)
    ensures !Filtering(clientId) ==> r == ds
    ensures |r| <= |ds| && multiset(r) <= multiset(ds)
    ensures forall d :: d in r ==> d in ds
  {
    if !Filtering(clientId) then ds else KeepRendered(ds, clientId.value)
  }

  function KeepRendered(ds: seq<Dossier>, s: string): (r: seq<Dossier>)
    ensures |r| <= |ds| && multiset(r) <= multiset(ds)
    ensures forall d :: d in r <==> d in ds && ToJsString(d.clientId) == s
  {
    if ds == [] then []
    else
      assert ds == [ds[0]] + ds[1..];
      (if ToJsString(ds[0].clientId) == s then [ds[0]] else []) + KeepRendered(ds[1..], s)
  }

  /** The filter keeps the order of the list: filtering a concatenation filters each
      part. */
  lemma {:induction false} KeepRenderedConcat(a: seq<Dossier>, b: seq<Dossier>, s: string)
    ensures KeepRendered(a + b, s) == KeepRendered(a, s) + KeepRendered(b, s)
    decreases |a|
  {
    if a == [] {
      assert a + b == b;
    } else {
      assert (a + b)[1..] == a[1..] + b;
      KeepRenderedConcat(a[1..], b, s);
    }
  }

  /** Opened for client `k`, the intended filter keeps exactly the dossiers whose
      `client_id` is `k`, in their order; without a parameter it keeps everything. */
  lemma FilterFixedKeepsClient(ds: seq<Dossier>, k: int)
    requires forall i :: 0 <= i < |ds| ==> !ds[i].clientId.JsString?
    ensures forall d :: d in FilterFixed(ds, Some(IntToString(k))) <==> d in ds && d.clientId == JsNumber(k)
    ensures FilterFixed(ds, None) == ds && FilterFixed(ds, Some("")) == ds
  {
    var s := IntToString(k);
    assert s[0] == '-' || IsDigit(s[0]) by {
      if k >= 0 { assert s == NatToString(k); assert IsDigit(NatToString(k)[0]); }
    }
    assert s != "null" by { assert "null"[0] == 'n'; }
    forall d | d in ds ensures ToJsString(d.clientId) == s <==> d.clientId == JsNumber(k) {
      if d.clientId.JsNumber? {
        IntToStringInjective(d.clientId.n, k);
      }
    }
  }
}
