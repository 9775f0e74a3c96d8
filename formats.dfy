/**
  What a recording is encoded as and what the downloaded file is called:
  ordered, first-match-wins negotiation over three MIME type / bitrate
  candidates against the browser's support probe, the file extension taken
  from the chosen MIME type, and the file name built from the capture date.
 */
module RecordingFormat {

  /** The options passed to the recorder: a MIME type and a video bitrate in bits per second. */
  datatype Format = Format(mimeType: string, videoBitsPerSecond: nat)

  /** H.264 Baseline in MP4 at 8 Mbps: the preferred choice. */
  const H264Mp4: Format := Format("video/mp4;codecs=avc1.42E01E", 8_000_000)

  /** Generic MP4 at 8 Mbps. */
  const GenericMp4: Format := Format("video/mp4", 8_000_000)

  /** VP8 in WebM at 6 Mbps: the last resort, used without asking the probe. */
  const Vp8Webm: Format := Format("video/webm;codecs=vp8", 6_000_000)

  /** The candidates in the order they are tried. */
  const Candidates: seq<Format> := [H264Mp4, GenericMp4, Vp8Webm]

  /** Prefix of every downloaded file name. */
  const FilenamePrefix: string := "tiktok-school-progress-"

  /**
    Index of the candidate first-match-wins negotiation settles on: the first
    one the probe supports, or the last one if none before it is supported.
   */
  function FirstSupportedIndex(candidates: seq<Format>, isTypeSupported: string -> bool): (i: nat)
    requires |candidates| > 0
    ensures i < |candidates|
    ensures forall j :: 0 <= j < i ==> !isTypeSupported(candidates[j].mimeType)
    ensures i == |candidates| - 1 || isTypeSupported(candidates[i].mimeType)
    decreases |candidates|
  {
    if |candidates| == 1 || isTypeSupported(candidates[0].mimeType) then 0
    else 1 + FirstSupportedIndex(candidates[1..], isTypeSupported)
  }

  /**
    The negotiation as the component performs it: start from the preferred
    format and fall back one step each time the probe rejects the current
    MIME type; the last fallback is not probed.
   */
  method NegotiateFormat(isTypeSupported: string -> bool) returns (format: Format)
    ensures format == Candidates[FirstSupportedIndex(Candidates, isTypeSupported)]
    ensures format == H264Mp4 <==> isTypeSupported(H264Mp4.mimeType)
    ensures format == GenericMp4 <==> !isTypeSupported(H264Mp4.mimeType) && isTypeSupported(GenericMp4.mimeType)
    ensures format == Vp8Webm <==> !isTypeSupported(H264Mp4.mimeType) && !isTypeSupported(GenericMp4.mimeType)
  {
    var mimeType := H264Mp4.mimeType;
    format := Format(mimeType, 8_000_000);
    if !isTypeSupported(mimeType) {
      mimeType := GenericMp4.mimeType;
      format := Format(mimeType, 8_000_000);
      if !isTypeSupported(mimeType) {
        mimeType := Vp8Webm.mimeType;
        format := Format(mimeType, 6_000_000);
      }
    }
    assert Candidates[1..] == [GenericMp4, Vp8Webm];
    assert Candidates[1..][1..] == [Vp8Webm];
  }

  /** `part` occurs in `s` starting at index `i`. */
  predicate OccursAt(s: string, part: string, i: int)
  {
    0 <= i <= |s| - |part| && s[i..i + |part|] == part
  }

  /** `s.includes(part)`: whether `part` occurs in `s` as a contiguous piece. */
  predicate Includes(s: string, part: string)
    ensures Includes(s, part) ==> |part| <= |s|
    ensures |part| <= |s| && s[..|part|] == part ==> OccursAt(s, part, 0) && Includes(s, part)
  {
    assert |part| <= |s| && s[..|part|] == part ==> OccursAt(s, part, 0);
    exists i | 0 <= i <= |s| - |part| :: OccursAt(s, part, i)
  }

  /** Extension of the downloaded file: "mp4" when the MIME type mentions mp4, else "webm". */
  function Extension(mimeType: string): (ext: string)
    ensures ext == "mp4" || ext == "webm"
    ensures ext == "mp4" <==> Includes(mimeType, "mp4")
  {
    if Includes(mimeType, "mp4") then "mp4" else "webm"
  }

  /** Both MP4 candidates save as .mp4. */
  lemma ExtensionOfMp4Candidates()
    ensures Extension(H264Mp4.mimeType) == "mp4"
    ensures Extension(GenericMp4.mimeType) == "mp4"
  {
    var h264, mp4 := H264Mp4.mimeType, GenericMp4.mimeType;
    assert h264[6] == mp4[6] == 'm' && h264[7] == mp4[7] == 'p' && h264[8] == mp4[8] == '4';
    assert OccursAt(h264, "mp4", 6) && OccursAt(mp4, "mp4", 6);
  }

  /** A piece found at `i` agrees with `s` character by character. */
  lemma OccursAtChar(s: string, part: string, i: int, k: int)
    requires OccursAt(s, part, i) && 0 <= k < |part|
    ensures s[i + k] == part[k]
  {
    assert s[i..i + |part|][k] == s[i + k];
  }

  /** The WebM fallback saves as .webm: its MIME type has no '4', so no "mp4". */
  lemma ExtensionOfWebmCandidate()
    ensures Extension(Vp8Webm.mimeType) == "webm"
  {
    var webm := Vp8Webm.mimeType;
    assert forall k | 0 <= k < |webm| :: webm[k] != '4';
    forall i | 0 <= i <= |webm| - 3
      ensures !OccursAt(webm, "mp4", i)
    {
      if OccursAt(webm, "mp4", i) {
        OccursAtChar(webm, "mp4", i, 2);
      }
    }
  }

  /** `s.replace(/[:.]/g, '-')`: every colon and full stop becomes a hyphen. */
  function ReplaceSeparators(s: string): (r: string)
    ensures |r| == |s|
    ensures forall i :: 0 <= i < |s| ==> r[i] == (if s[i] == ':' || s[i] == '.' then '-' else s[i])
  {
    if s == [] then []
    else [if s[0] == ':' || s[0] == '.' then '-' else s[0]] + ReplaceSeparators(s[1..])
  }

  /** `s.split('T')[0]`: the longest prefix of `s` without a 'T'. */
  function BeforeFirstT(s: string): (r: string)
    ensures |r| <= |s| && r == s[..|r|]
    ensures 'T' !in r
    ensures |r| < |s| ==> s[|r|] == 'T'
  {
    if s == [] || s[0] == 'T' then []
    else [s[0]] + BeforeFirstT(s[1..])
  }

  /** The date part of an ISO timestamp, with separators replaced, as it goes into the file name. */
  function DatePart(isoTimestamp: string): (d: string)
    ensures 'T' !in d && ':' !in d && '.' !in d
    ensures |d| <= |isoTimestamp|
  {
    BeforeFirstT(ReplaceSeparators(isoTimestamp))
  }

  /** Name of the downloaded file for a capture finished at `isoTimestamp`. */
  function Filename(isoTimestamp: string, extension: string): (name: string)
    ensures |name| == |FilenamePrefix| + |DatePart(isoTimestamp)| + 1 + |extension|
    ensures name[..|FilenamePrefix|] == FilenamePrefix
    ensures name[|name| - |extension|..] == extension
    ensures name[|name| - |extension| - 1] == '.'
    ensures '.' !in name[|FilenamePrefix|..|name| - |extension| - 1]
  {
    FilenamePrefix + DatePart(isoTimestamp) + "." + extension
  }

  /**
    For a timestamp shaped like `toISOString()` output, "YYYY-MM-DD" followed
    by 'T' and the time, the file name carries exactly the ten date
    characters.
   */
  lemma FilenameOfIsoTimestamp(isoTimestamp: string, extension: string)
    requires |isoTimestamp| > 10 && isoTimestamp[10] == 'T'
    requires forall i :: 0 <= i < 10 ==> isoTimestamp[i] !in "T:."
    ensures DatePart(isoTimestamp) == isoTimestamp[..10]
    ensures Filename(isoTimestamp, extension) == FilenamePrefix + isoTimestamp[..10] + "." + extension
  {
    var replaced := ReplaceSeparators(isoTimestamp);
    assert replaced[..10] == isoTimestamp[..10];
    assert replaced[10] == 'T';
  }
}
