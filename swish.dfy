/**
 * The Swish "pre-filled" QR payload `C<payee>;<amount>;<message>;<lock>`
 * (a proprietary format of the Swish app: `C` marks a commerce payment, the
 * last field is 0 when the amount is locked and 1 when it is editable), the
 * phone-number cleaning in front of it, and the `useSwishQR` hook that keeps
 * the generated image URL.
 */
module Swish {
  import opened Wrappers
  import opened Text
  import Money

  const CountryPrefix: string := "+46"

  /** Removes all white space, then at most one leading "+46". */
  function CleanNumber(phone: string): (r: string)
    ensures NoSpace(r)
    ensures r == RemoveSpaces(phone) || CountryPrefix + r == RemoveSpaces(phone)
    ensures !IsPrefix(CountryPrefix, RemoveSpaces(phone)) ==> r == RemoveSpaces(phone)
    ensures IsPrefix(CountryPrefix, RemoveSpaces(phone)) ==> CountryPrefix + r == RemoveSpaces(phone)
  {
    var w := RemoveSpaces(phone);
    if IsPrefix(CountryPrefix, w) then
      assert w == CountryPrefix + w[3..];
      w[3..]
    else w
  }

  /** Fields separated by ';'. */
  function Join(fields: seq<string>): (r: string)
    requires |fields| >= 1
  {
    if |fields| == 1 then fields[0] else fields[0] + ";" + Join(fields[1..])
  }

  /** The payload the pages encode: payee, amount to two decimals, an empty message, locked. */
  function Payload(phone: string, amountOre: int): string {
    "C" + Join([CleanNumber(phone), Money.FormatOre(amountOre), "", "0"])
  }

  /** What a reader of the payload recovers from it. */
  datatype Request = Request(payee: string, amountOre: int, message: string, editable: bool)

  /** Splits at every ';' (like `s.split(";")`). */
  function Split(s: string): (r: seq<string>)
    ensures |r| >= 1
  {
    if s == [] then [""]
    else
      var rest := Split(s[1..]);
      if s[0] == ';' then [""] + rest else [[s[0]] + rest[0]] + rest[1..]
  }

  lemma {:induction false} SplitNoSeparator(s: string)
    requires ';' !in s
    ensures Split(s) == [s]
  {
    if s != [] {
      SplitNoSeparator(s[1..]);
      assert [s[0]] + s[1..] == s;
    }
  }

  lemma {:induction false} SplitAt(a: string, b: string)
    requires ';' !in a
    ensures Split(a + ";" + b) == [a] + Split(b)
  {
    if a == [] {
      assert a + ";" + b == [';'] + b;
      assert (a + ";" + b)[1..] == b;
    } else {
      var s := a + ";" + b;
      assert s[0] == a[0];
      assert s[1..] == a[1..] + ";" + b;
      SplitAt(a[1..], b);
      assert [a[0]] + a[1..] == a;
    }
  }

  function ParsePayload(s: string): Option<Request> {
    if |s| == 0 || s[0] != 'C' then None
    else
      var fields := Split(s[1..]);
      if |fields| != 4 then None
      else match Money.ParseOre(fields[1])
        case None => None
        case Some(amount) =>
          if fields[3] == "0" then Some(Request(fields[0], amount, fields[2], false))
          else if fields[3] == "1" then Some(Request(fields[0], amount, fields[2], true))
          else None
  }

  /** A reader of the payload gets back the cleaned payee, the exact amount, no message and a locked amount. */
  lemma PayloadRoundTrip(phone: string, amountOre: int)
    requires ';' !in CleanNumber(phone)
    ensures ParsePayload(Payload(phone, amountOre)) == Some(Request(CleanNumber(phone), amountOre, "", false))
  {
    var fields := [CleanNumber(phone), Money.FormatOre(amountOre), "", "0"];
    var s := Payload(phone, amountOre);
    assert s[0] == 'C' && s[1..] == Join(fields);
    SplitJoin(fields);
    Money.FormatOreRoundTrip(amountOre);
  }

  /** `Split` undoes `Join` when no field holds the separator. */
  lemma {:induction false} SplitJoin(fields: seq<string>)
    requires |fields| >= 1
    requires forall i :: 0 <= i < |fields| ==> ';' !in fields[i]
    ensures Split(Join(fields)) == fields
    decreases |fields|
  {
    if |fields| == 1 {
      SplitNoSeparator(fields[0]);
    } else {
      SplitAt(fields[0], Join(fields[1..]));
      SplitJoin(fields[1..]);
      assert fields == [fields[0]] + fields[1..];
    }
  }

  /** The state of the `useSwishQR` hook: the data URL of the last generated image, if any. */
  class SwishQr {
    var qrCodeUrl: Option<string>

    constructor ()
      ensures qrCodeUrl == None
    {
      qrCodeUrl := None;
    }

    /**
     * `generateQR`: refuses a blank number and a non-positive amount; otherwise
     * hands the payload to the image encoder (`encode`, None when it throws),
     * keeps the URL and reports true, or reports false on an encoder failure.
     */
    method GenerateQR(phoneNumber: string, amountOre: int, encode: string -> Option<string>) returns (ok: bool)
      modifies this
      ensures ok <==> !IsBlank(phoneNumber) && amountOre > 0 && encode(Payload(phoneNumber, amountOre)).Some?
      ensures qrCodeUrl == if ok then encode(Payload(phoneNumber, amountOre)) else old(qrCodeUrl)
    {
      if IsBlank(phoneNumber) {
        return false;
      }
      if amountOre <= 0 {
        return false;
      }
      var url := encode(Payload(phoneNumber, amountOre));
      if url.None? {
        return false;
      }
      qrCodeUrl := url;
      return true;
    }

    method ClearQR()
      modifies this
      ensures qrCodeUrl == None
    {
      qrCodeUrl := None;
    }
  }
}
