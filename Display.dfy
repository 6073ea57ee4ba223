/** DisplayIpInfo: the ten console lines printed for one looked-up address. */
module Display {
  import opened IpInfo

  /** What an absent field is shown as. */
  const UNKNOWN := "Unknown"

  /** The line that closes each record. */
  const SEPARATOR := "-----"

  /** The nine fields of the record, in the order they are printed. */
  const FIELDS: seq<string> := ["ip", "country", "org", "hostname", "city", "region", "postal", "timezone", "loc"]

  /** The caption of each field line, in the order they are printed. */
  const CAPTIONS: seq<string> := ["IP: ", "  Country: ", "  Organization: ", "  Hostname: ", "  City: ",
                                  "  Region: ", "  Postal Code: ", "  Timezone: ", "  Location: "]

  /** The record as printed: nine labelled fields, then the separator. */
  function Render(info: Record): (lines: seq<string>)
    ensures |lines| == 10 && lines[9] == SEPARATOR
  {
    var ip := Field(info, "ip", UNKNOWN);
    var country := Field(info, "country", UNKNOWN);
    var org := Field(info, "org", UNKNOWN);
    var hostname := Field(info, "hostname", UNKNOWN);
    var city := Field(info, "city", UNKNOWN);
    var region := Field(info, "region", UNKNOWN);
    var postal := Field(info, "postal", UNKNOWN);
    var timezone := Field(info, "timezone", UNKNOWN);
    var loc := Field(info, "loc", UNKNOWN);
    [ "IP: " + ip,
      "  Country: " + country,
      "  Organization: " + org,
      "  Hostname: " + hostname,
      "  City: " + city,
      "  Region: " + region,
      "  Postal Code: " + postal,
      "  Timezone: " + timezone,
      "  Location: " + loc,
      SEPARATOR ]
  }

  /** A reader of the report: the text after the first ": " of a line. */
  function ValueOf(line: string): string
    decreases |line|
  {
    if |line| < 2 then ""
    else if line[0] == ':' && line[1] == ' ' then line[2..]
    else ValueOf(line[1..])
  }

  /** A caption of a record line: text without a colon, then ": ". */
  predicate Caption(caption: string)
  {
    |caption| >= 2 && caption[|caption| - 2] == ':' && caption[|caption| - 1] == ' '
    && ':' !in caption[..|caption| - 2]
  }

  /** A caption whose only colon is in its closing ": " is stripped off by the reader. */
  lemma {:induction false} ValueAfterLabel(caption: string, value: string)
    requires Caption(caption)
    ensures ValueOf(caption + value) == value
    decreases |caption|
  {
    var line := caption + value;
    if |caption| == 2 {
      assert line[2..] == value;
    } else {
      assert line[1..] == caption[1..] + value;
      assert caption[0] == caption[..|caption| - 2][0];
      assert caption[1..][..|caption| - 3] == caption[..|caption| - 2][1..];
      ValueAfterLabel(caption[1..], value);
    }
  }

  /**
   * Line k of the printed record is the k-th caption followed by the k-th
   * field, or "Unknown" when it is absent; reading it back gives that value.
   */
  lemma RenderReadBack(info: Record)
    ensures forall k :: 0 <= k < 9 ==> Render(info)[k] == CAPTIONS[k] + Field(info, FIELDS[k], UNKNOWN)
    ensures forall k :: 0 <= k < 9 ==> ValueOf(Render(info)[k]) == Field(info, FIELDS[k], UNKNOWN)
  {
    CaptionsOfRender();
    ValueAfterLabel("IP: ", Field(info, "ip", UNKNOWN));
    ValueAfterLabel("  Country: ", Field(info, "country", UNKNOWN));
    ValueAfterLabel("  Organization: ", Field(info, "org", UNKNOWN));
    ValueAfterLabel("  Hostname: ", Field(info, "hostname", UNKNOWN));
    ValueAfterLabel("  City: ", Field(info, "city", UNKNOWN));
    ValueAfterLabel("  Region: ", Field(info, "region", UNKNOWN));
    ValueAfterLabel("  Postal Code: ", Field(info, "postal", UNKNOWN));
    ValueAfterLabel("  Timezone: ", Field(info, "timezone", UNKNOWN));
    ValueAfterLabel("  Location: ", Field(info, "loc", UNKNOWN));
  }

  /** The nine captions of the record each end in their only colon, followed by a blank. */
  lemma CaptionsOfRender()
    ensures Caption("IP: ")
    ensures Caption("  Country: ")
    ensures Caption("  Organization: ")
    ensures Caption("  Hostname: ")
    ensures Caption("  City: ")
    ensures Caption("  Region: ")
    ensures Caption("  Postal Code: ")
    ensures Caption("  Timezone: ")
    ensures Caption("  Location: ")
  {
  }

  /**
   * Two records print the same exactly when they agree on the nine fields as
   * shown: the other fields of the answer never reach the console.
   */
  lemma RenderSameIff(a: Record, b: Record)
    ensures Render(a) == Render(b) <==>
      forall k :: 0 <= k < 9 ==> Field(a, FIELDS[k], UNKNOWN) == Field(b, FIELDS[k], UNKNOWN)
  {
    RenderReadBack(a);
    RenderReadBack(b);
    if forall k :: 0 <= k < 9 ==> Field(a, FIELDS[k], UNKNOWN) == Field(b, FIELDS[k], UNKNOWN) {
      assert forall k :: 0 <= k < 9 ==> Field(a, FIELDS[k], UNKNOWN) == Field(b, FIELDS[k], UNKNOWN);
      assert Field(a, FIELDS[0], UNKNOWN) == Field(b, FIELDS[0], UNKNOWN);
    }
  }

}
