/** The camera platform: the single-frame extractor for mjpg-streamer's MJPEG stream, the
    availability rule, the fetch guard, and the entity's identity and `device_info`. */
module Camera {
  import opened Base
  import opened Json
  import Text
  import Device

  // ---------------------------------------------------------------- byte strings

  /** `bytes` read as text: each byte is the character with the same code. */
  function Latin1(b: seq<byte>): (s: string)
    ensures |s| == |b| && forall i :: 0 <= i < |b| ==> s[i] as int == b[i]
  {
    seq(|b|, i requires 0 <= i < |b| => b[i] as char)
  }

  /** The bytes of a decimal numeral. */
  function DigitBytes(s: string): (b: seq<byte>)
    requires Text.AllDigits(s)
    ensures |b| == |s| && Latin1(b) == s
    ensures forall i :: 0 <= i < |b| ==> 0x30 <= b[i] <= 0x39
  {
    var b := seq(|s|, i requires 0 <= i < |s| => assert Text.IsDigit(s[i]); s[i] as int);
    assert Latin1(b) == s;
    b
  }

  /** `b'--boundarydonotcross'`. */
  const Boundary: seq<byte> := [0x2D, 0x2D, 0x62, 0x6F, 0x75, 0x6E, 0x64, 0x61, 0x72, 0x79,
                                0x64, 0x6F, 0x6E, 0x6F, 0x74, 0x63, 0x72, 0x6F, 0x73, 0x73]

  /** `b'Content-Length: '`. */
  const LengthHeader: seq<byte> := [0x43, 0x6F, 0x6E, 0x74, 0x65, 0x6E, 0x74, 0x2D,
                                    0x4C, 0x65, 0x6E, 0x67, 0x74, 0x68, 0x3A, 0x20]

  /** `b'\r\n'` and `b'\r\n\r\n'`. */
  const LineEnd: seq<byte> := [0x0D, 0x0A]
  const HeaderEnd: seq<byte> := [0x0D, 0x0A, 0x0D, 0x0A]

  /** The JPEG start-of-image marker `b'\xff\xd8'`. */
  const StartOfImage: seq<byte> := [0xFF, 0xD8]

  lemma MarkerTexts()
    ensures Latin1(Boundary) == "--boundarydonotcross"
    ensures Latin1(LengthHeader) == "Content-Length: "
  {
  }

  predicate StartsJpeg(frame: seq<byte>) {
    |frame| >= 2 && frame[..2] == StartOfImage
  }

  // ---------------------------------------------------------------- the part header

  /** Where the frame starts and how long its header says it is: the first
      `\r\n\r\n` at or after the boundary, and `int()` of the text between the first
      `Content-Length: ` at or after the boundary and the next `\r\n`. `None` for each of the
      extractor's early exits. */
  function Scan(stream: seq<byte>): (r: Option<(nat, int)>)
    ensures !Text.Contains(stream, Boundary) ==> r == None
    ensures r.Some? ==> r.value.0 <= |stream|
  {
    var bp := Text.Find(stream, Boundary, 0);
    if bp == -1 then None
    else
      var ls := Text.Find(stream, LengthHeader, bp);
      if ls == -1 then None
      else
        var le := Text.Find(stream, LineEnd, ls);
        if le == -1 then None
        else
          LineEndAfterHeader(stream, ls);
          match Text.ParseInt(Latin1(stream[ls + |LengthHeader|..le]), Text.IsAsciiSpace)
          case None => None
          case Some(length) =>
            var hp := Text.Find(stream, HeaderEnd, bp);
            if hp == -1 then None else Some((hp + |HeaderEnd|, length))
  }

  /** The other early exits: no `Content-Length: ` at or after the boundary, no `\r\n`
      after it, a length `int()` rejects, or no blank line at or after the boundary. */
  lemma ScanFailures(stream: seq<byte>)
    requires Text.Contains(stream, Boundary)
    ensures var bp := Text.Find(stream, Boundary, 0);
      var ls := Text.Find(stream, LengthHeader, bp);
      (ls == -1 || Text.Find(stream, HeaderEnd, bp) == -1) ==> Scan(stream) == None
    ensures var bp := Text.Find(stream, Boundary, 0);
      var ls := Text.Find(stream, LengthHeader, bp);
      ls != -1 ==>
        var le := Text.Find(stream, LineEnd, ls);
        (le == -1 || (le >= ls + |LengthHeader|
                      && Text.ParseInt(Latin1(stream[ls + |LengthHeader|..le]), Text.IsAsciiSpace).None?))
        ==> Scan(stream) == None
  {
  }

  /** The header name holds no `\r`, so the line it starts ends after it. */
  lemma LineEndAfterHeader(stream: seq<byte>, ls: int)
    requires ls >= 0 && Text.OccursAt(stream, LengthHeader, ls)
    ensures var le := Text.Find(stream, LineEnd, ls); le == -1 || le >= ls + |LengthHeader|
  {
    forall j | ls <= j < ls + |LengthHeader|
      ensures !Text.OccursAt(stream, LineEnd, j)
    {
      assert stream[j] == stream[ls..ls + |LengthHeader|][j - ls];
      Text.NoOccurrence(stream, LineEnd, j, 0);
    }
  }

  // ---------------------------------------------------------------- the extractor

  /** The frame a scanned header delimits, with the declared length checked to be
      non-negative: exactly the declared number of bytes after the header, which must start
      with the JPEG marker. */
  function Cut(stream: seq<byte>, scan: Option<(nat, int)>): (r: Option<seq<byte>>)
    ensures scan.None? ==> r == None
    ensures r.Some? ==> var (start, length) := scan.value;
      && 0 <= length && start + length <= |stream|
      && r.value == stream[start..start + length] && |r.value| == length && StartsJpeg(r.value)
    ensures scan.Some? && scan.value.0 + scan.value.1 > |stream| ==> r == None
    ensures (scan.Some? && 0 <= scan.value.1 && scan.value.0 + scan.value.1 <= |stream|
             && StartsJpeg(stream[scan.value.0..scan.value.0 + scan.value.1])) ==> r.Some?
  {
    match scan
    case None => None
    case Some((start, length)) =>
      if length < 0 || start + length > |stream| then None
      else
        var frame := stream[start..start + length];
        if StartsJpeg(frame) then Some(frame) else None
  }

  /** `_extract_jpeg_from_mjpeg` with the length check: `Cut` of the scanned header. */
  function ExtractJpeg(stream: seq<byte>): (r: Option<seq<byte>>)
    ensures Scan(stream).None? ==> r == None
    ensures r.Some? ==> StartsJpeg(r.value) && |r.value| == Scan(stream).value.1
  {
    Cut(stream, Scan(stream))
  }

  /** Python `s[a:b]` for `0 <= a <= len(s)`: a negative `b` counts from the end. */
  function PySlice(s: seq<byte>, a: nat, b: int): (r: seq<byte>)
    requires a <= |s|
    ensures 0 <= b <= |s| && a <= b ==> r == s[a..b]
  {
    var e := if b < 0 then (if b + |s| < 0 then 0 else b + |s|) else (if b > |s| then |s| else b);
    if e <= a then [] else s[a..e]
  }

  /** The cut as written: a negative `Content-Length` passes the "enough data" check, and
      the slice then counts its end from the end of the data. */
  function CutAsWritten(stream: seq<byte>, scan: Option<(nat, int)>): (r: Option<seq<byte>>)
    requires scan.Some? ==> scan.value.0 <= |stream|
    ensures scan.Some? && scan.value.1 >= 0 ==> r == Cut(stream, scan)
  {
    match scan
    case None => None
    case Some((start, length)) =>
      if start + length > |stream| then None
      else
        var frame := PySlice(stream, start, start + length);
        if StartsJpeg(frame) then Some(frame) else None
  }

  /** `_extract_jpeg_from_mjpeg` as written. */
  function ExtractJpegAsWritten(stream: seq<byte>): (r: Option<seq<byte>>)
    ensures Scan(stream).Some? && Scan(stream).value.1 >= 0 ==> r == ExtractJpeg(stream)
  {
    CutAsWritten(stream, Scan(stream))
  }

  // ---------------------------------------------------------------- a framed part

  /** The header of one part: the boundary, a line, `Content-Length: ` with `text`, and
      the blank line. */
  function HeaderOf(text: seq<byte>): (h: seq<byte>)
    ensures |h| == 42 + |text|
  {
    Boundary + LineEnd + LengthHeader + text + HeaderEnd
  }

  /** One part as mjpg-streamer frames it, declaring the JPEG's own length. */
  function Part(jpeg: seq<byte>): seq<byte> {
    HeaderOf(DigitBytes(Text.NatToDecimal(|jpeg|))) + jpeg
  }

  /** The layout of a header with `t` bytes of length text, at the start of `st`. */
  predicate Framed(st: seq<byte>, t: nat) {
    && 42 + t <= |st|
    && st[..20] == Boundary && st[20..22] == LineEnd && st[22..38] == LengthHeader
    && st[38 + t..42 + t] == HeaderEnd
    && (forall j :: 38 <= j < 38 + t ==> st[j] != 0x0D)
  }

  lemma HeaderFramed(text: seq<byte>, tail: seq<byte>)
    requires forall i :: 0 <= i < |text| ==> text[i] != 0x0D
    ensures Framed(HeaderOf(text) + tail, |text|)
    ensures (HeaderOf(text) + tail)[38..38 + |text|] == text
  {
    var st := HeaderOf(text) + tail;
    assert st[..20] == Boundary;
    assert st[20..22] == LineEnd;
    assert st[22..38] == LengthHeader;
    assert st[38..38 + |text|] == text;
    assert st[38 + |text|..42 + |text|] == HeaderEnd;
    forall j | 38 <= j < 38 + |text|
      ensures st[j] != 0x0D
    {
      assert st[j] == text[j - 38];
    }
  }

  lemma BoundaryBytes(st: seq<byte>, t: nat)
    requires Framed(st, t)
    ensures forall j :: 0 <= j < 20 ==> st[j] != 0x43 && st[j] != 0x0D
  {
    forall j | 0 <= j < 20
      ensures st[j] != 0x43 && st[j] != 0x0D
    {
      assert st[j] == st[..20][j];
    }
  }

  lemma FramedBoundary(st: seq<byte>, t: nat)
    requires Framed(st, t)
    ensures Text.Find(st, Boundary, 0) == 0
  {
    Text.FindFirst(st, Boundary, 0, 0);
  }

  lemma FramedLengthHeader(st: seq<byte>, t: nat)
    requires Framed(st, t)
    ensures Text.Find(st, LengthHeader, 0) == 22
  {
    BoundaryBytes(st, t);
    assert st[20] == st[20..22][0] && st[21] == st[20..22][1];
    forall j | 0 <= j < 22
      ensures !Text.OccursAt(st, LengthHeader, j)
    {
      Text.NoOccurrence(st, LengthHeader, j, 0);
    }
    Text.FindFirst(st, LengthHeader, 0, 22);
  }

  lemma LengthHeaderBytes(st: seq<byte>, t: nat)
    requires Framed(st, t)
    ensures forall j :: 22 <= j < 38 + t ==> st[j] != 0x0D
  {
    forall j | 22 <= j < 38
      ensures st[j] != 0x0D
    {
      assert st[j] == st[22..38][j - 22];
    }
  }

  lemma FramedLineEnd(st: seq<byte>, t: nat)
    requires Framed(st, t)
    ensures Text.Find(st, LineEnd, 22) == 38 + t
  {
    LengthHeaderBytes(st, t);
    forall j | 22 <= j < 38 + t
      ensures !Text.OccursAt(st, LineEnd, j)
    {
      Text.NoOccurrence(st, LineEnd, j, 0);
    }
    assert st[38 + t..40 + t] == st[38 + t..42 + t][..2];
    Text.FindFirst(st, LineEnd, 22, 38 + t);
  }

  lemma FramedHeaderEnd(st: seq<byte>, t: nat)
    requires Framed(st, t)
    ensures Text.Find(st, HeaderEnd, 0) == 38 + t
  {
    BoundaryBytes(st, t);
    LengthHeaderBytes(st, t);
    assert st[21] == st[20..22][1] && st[22] == st[22..38][0];
    forall j | 0 <= j < 38 + t
      ensures !Text.OccursAt(st, HeaderEnd, j)
    {
      if j == 20 {
        Text.NoOccurrence(st, HeaderEnd, j, 2);
      } else {
        Text.NoOccurrence(st, HeaderEnd, j, 0);
      }
    }
    Text.FindFirst(st, HeaderEnd, 0, 38 + t);
  }

  /** A framed header reads back: the data starts right after it, and the declared length
      is `int()` of the header's text. */
  lemma ScanFramed(st: seq<byte>, t: nat)
    requires Framed(st, t)
    ensures Scan(st)
         == match Text.ParseInt(Latin1(st[38..38 + t]), Text.IsAsciiSpace)
            case None => None
            case Some(length) => Some((42 + t, length))
  {
    FramedBoundary(st, t);
    FramedLengthHeader(st, t);
    FramedLineEnd(st, t);
    FramedHeaderEnd(st, t);
  }

  lemma ScanHeader(text: seq<byte>, tail: seq<byte>)
    requires forall i :: 0 <= i < |text| ==> text[i] != 0x0D
    ensures Scan(HeaderOf(text) + tail)
         == match Text.ParseInt(Latin1(text), Text.IsAsciiSpace)
            case None => None
            case Some(length) => Some((42 + |text|, length))
  {
    HeaderFramed(text, tail);
    ScanFramed(HeaderOf(text) + tail, |text|);
  }

  /** The header of a framed part declares the JPEG's length and ends where it starts. */
  lemma ScanPart(jpeg: seq<byte>, rest: seq<byte>)
    requires |Text.NatToDecimal(|jpeg|)| <= Text.MaxStrDigits
    ensures Scan(Part(jpeg) + rest) == Some((42 + |Text.NatToDecimal(|jpeg|)|, |jpeg|))
  {
    var text := DigitBytes(Text.NatToDecimal(|jpeg|));
    assert Part(jpeg) + rest == HeaderOf(text) + (jpeg + rest);
    ScanHeader(text, jpeg + rest);
    Text.ParseIntRoundTrip(|jpeg|, Text.IsAsciiSpace);
  }

  /** The extractor returns the JPEG of a framed part, whatever follows it. */
  lemma ExtractPart(jpeg: seq<byte>, rest: seq<byte>)
    requires StartsJpeg(jpeg) && |Text.NatToDecimal(|jpeg|)| <= Text.MaxStrDigits
    ensures ExtractJpeg(Part(jpeg) + rest) == Some(jpeg)
    ensures ExtractJpegAsWritten(Part(jpeg) + rest) == Some(jpeg)
  {
    var h := 42 + |Text.NatToDecimal(|jpeg|)|;
    var st := Part(jpeg) + rest;
    ScanPart(jpeg, rest);
    assert st[h..h + |jpeg|] == jpeg;
    assert Cut(st, Some((h, |jpeg|))) == Some(jpeg);
  }

  /** A 48-byte stream whose header ends at 45 and declares -46 bytes: the frame's end is
      -1, which the slice takes as one byte short of the end; the checked cut refuses. */
  lemma NegativeLengthCut(st: seq<byte>)
    requires |st| == 48 && st[45] == 0xFF && st[46] == 0xD8
    ensures CutAsWritten(st, Some((45, -46))) == Some(StartOfImage)
    ensures Cut(st, Some((45, -46))) == None
  {
    assert PySlice(st, 45, -1) == st[45..47] == [st[45], st[46]];
    assert StartsJpeg(st[45..47]);
  }

  /** A part declaring -46 bytes ahead of three bytes that start FF D8 (`MinusFortySix`
      gives a `text` that reads -46): the header is 45 bytes long. */
  lemma NegativeLengthFrame(text: seq<byte>, tail: seq<byte>)
    requires |text| == 3 && forall i :: 0 <= i < |text| ==> text[i] != 0x0D
    requires Text.ParseInt(Latin1(text), Text.IsAsciiSpace) == Some(-46)
    requires |tail| == 3 && tail[0] == 0xFF && tail[1] == 0xD8
    ensures Scan(HeaderOf(text) + tail) == Some((45, -46))
    ensures ExtractJpegAsWritten(HeaderOf(text) + tail) == Some(StartOfImage)
    ensures ExtractJpeg(HeaderOf(text) + tail) == None
  {
    ScanHeader(text, tail);
    var st := HeaderOf(text) + tail;
    assert st[45] == tail[0] && st[46] == tail[1];
    NegativeLengthCut(st);
  }

  /** `int(b'-46')`. */
  lemma MinusFortySix(text: seq<byte>)
    requires text == [0x2D, 0x34, 0x36]
    ensures forall i :: 0 <= i < |text| ==> text[i] != 0x0D
    ensures Text.ParseInt(Latin1(text), Text.IsAsciiSpace) == Some(-46)
  {
    var n := -46;
    assert Text.NatToDecimal(46) == "46";
    assert Text.IntToDecimal(n) == "-46";
    assert Latin1(text) == "-46";
    Text.ParseIntRoundTrip(n, Text.IsAsciiSpace);
  }

  // ---------------------------------------------------------------- the entity

  /** `coordinator.data.get("video", 0) == 1` on data that exists. */
  predicate VideoOn(data: Option<Frame>) {
    HasData(data) && EqualsInt(Get(data.value, "video", Int(0)), 1)
  }

  /** `available`: data, video on, and the last refresh succeeded. */
  function Available(data: Option<Frame>, lastUpdateSuccess: bool): (b: bool)
    ensures b <==> VideoOn(data) && lastUpdateSuccess
  {
    HasData(data) && EqualsInt(Get(data.value, "video", Int(0)), 1) && lastUpdateSuccess
  }

  /** `async_camera_image`: `None` without fetching unless video is on; otherwise what the
      stream reading yields, `fetched` here. */
  function CameraImage(data: Option<Frame>, fetched: Option<seq<byte>>): (r: Option<seq<byte>>)
    ensures !VideoOn(data) ==> r == None
    ensures VideoOn(data) ==> r == fetched
  {
    if !HasData(data) || !EqualsInt(Get(data.value, "video", Int(0)), 1) then None else fetched
  }

  /** An available camera is never turned away by the fetch guard. */
  lemma AvailableFetches(data: Option<Frame>, fetched: Option<seq<byte>>)
    requires Available(data, true)
    ensures CameraImage(data, fetched) == fetched
  {
  }

  /** The model the camera is built with: `data.get('model', 'Printer')`, or "Printer"
      without data. */
  function CameraModel(data: Option<Frame>): (m: Value)
    ensures !HasData(data) ==> m == Str("Printer")
    ensures HasData(data) && "model" in data.value ==> m == data.value["model"]
    ensures HasData(data) && "model" !in data.value ==> m == Str("Printer")
  {
    if HasData(data) then Get(data.value, "model", Str("Printer")) else Str("Printer")
  }

  /** `f"Creality {model} Camera"`, where `str(model)` is rendered. */
  function CameraName(data: Option<Frame>): (n: Option<string>)
    ensures CameraModel(data).Str? ==> n == Some("Creality " + CameraModel(data).s + " Camera")
    ensures n.None? <==> PyStr(CameraModel(data)).None?
  {
    match PyStr(CameraModel(data))
    case Some(s) => Some("Creality " + s + " Camera")
    case None => None
  }

  /** `f"{host}_camera"`. */
  function CameraUniqueId(host: string): (id: string)
    ensures |id| == |host| + 7 && id[..|host|] == host && id[|host|..] == "_camera"
  {
    host + "_camera"
  }

  /** The `device_info` fixed when the camera is created, from the data then: it takes the
      model from `model` alone, not the precedence of the other platforms. */
  function CameraDeviceInfo(host: string, data: Option<Frame>): (r: Result<Device.DeviceInfo, PyError>)
    ensures r.Ok? <==> Device.ProductImage(CameraModel(data)).Ok?
    ensures r.Ok? ==> r.value.model == CameraModel(data) && r.value.identifier == host
    ensures r.Ok? ==> r.value.productImage == Device.ImageEntry(Device.ProductImage(CameraModel(data)).value)
  {
    Device.Info(host, data, CameraModel(data), true)
  }

  /** Where a frame names its model, the camera and the other platforms show the same one. */
  lemma CameraModelAgrees(data: Option<Frame>)
    requires HasData(data) && "model" in data.value
    ensures CameraModel(data) == Device.DeviceModel(data)
  {
  }
}
