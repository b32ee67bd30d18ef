/**
 * The `getClipboardImage` tool of server.ts.  Its two external calls become
 * inputs: whether `which pngpaste` succeeds, and what `pngpaste -` produced
 * (its standard output as bytes, or the message of the error it raised).
 * The handler is then a function from those inputs to the tool's response.
 */
module ClipboardTool {
  import Base64
  import opened Wrappers

  /** One entry of the response's `content` list. */
  datatype ContentPart = Text(text: string) | Image(data: string, mimeType: string)

  datatype ToolResponse = ToolResponse(content: seq<ContentPart>)

  /** The outcome of running `pngpaste -`. */
  datatype CaptureResult = Captured(stdout: seq<Base64.uint8>) | CaptureFailed(message: string)

  const NotInstalledText: string := "Error: pngpaste is not installed. Please install it with: brew install pngpaste"
  const CaptionText: string := "Here is the current image from your clipboard:"
  const ErrorPrefix: string := "Error capturing clipboard image: "
  const ErrorSuffix: string := ". Make sure you have an image copied to your clipboard."
  const PngMimeType: string := "image/png"

  predicate OccursAt(s: string, t: string, k: nat)
  {
    k + |t| <= |s| && s[k..k + |t|] == t
  }

  ghost predicate Contains(s: string, t: string)
  {
    exists k :: OccursAt(s, t, k)
  }

  /** The text of the catch branch, with the error's message in the middle. */
  function CaptureErrorText(message: string): (text: string)
    ensures |text| == |ErrorPrefix| + |message| + |ErrorSuffix|
    ensures text[..|ErrorPrefix|] == ErrorPrefix
    ensures text[|ErrorPrefix|..|ErrorPrefix| + |message|] == message
    ensures text[|ErrorPrefix| + |message|..] == ErrorSuffix
  {
    ErrorPrefix + message + ErrorSuffix
  }

  /** The message a catch-branch text was built from. */
  function CaptureErrorMessage(text: string): (message: string)
    requires |text| >= |ErrorPrefix| + |ErrorSuffix|
  {
    text[|ErrorPrefix|..|text| - |ErrorSuffix|]
  }

  lemma CaptureErrorMessageRecovered(message: string)
    ensures CaptureErrorMessage(CaptureErrorText(message)) == message
  {
  }

  ghost predicate HasImage(r: ToolResponse)
  {
    exists k :: 0 <= k < |r.content| && r.content[k].Image?
  }

  /** The `execute` handler of `getClipboardImage`. */
  function GetClipboardImage(pngpasteAvailable: bool, capture: CaptureResult): (r: ToolResponse)
    ensures 1 <= |r.content| <= 2 && r.content[0].Text?
    ensures |r.content| == 2 <==> pngpasteAvailable && capture.Captured?
    ensures |r.content| == 2 ==> r.content[1].Image? && r.content[1].mimeType == PngMimeType
  {
    if !pngpasteAvailable then
      ToolResponse([Text(NotInstalledText)])
    else match capture
      case Captured(stdout) =>
        ToolResponse([Text(CaptionText), Image(Base64.Encode(stdout), PngMimeType)])
      case CaptureFailed(message) =>
        ToolResponse([Text(CaptureErrorText(message))])
  }

  /** A caller tells success from failure by the presence of an image part. */
  lemma ImageIffCaptured(pngpasteAvailable: bool, capture: CaptureResult)
    ensures HasImage(GetClipboardImage(pngpasteAvailable, capture)) <==> pngpasteAvailable && capture.Captured?
  {
    var r := GetClipboardImage(pngpasteAvailable, capture);
    if |r.content| == 2 {
      assert r.content[1].Image?;
    }
  }

  /** Without pngpaste: one text part with the install instruction, no image. */
  lemma NotInstalledResponse(capture: CaptureResult)
    ensures var r := GetClipboardImage(false, capture);
      |r.content| == 1 && r.content[0].Text? && Contains(r.content[0].text, "brew install pngpaste")
  {
    assert OccursAt(NotInstalledText, "brew install pngpaste", 58);
  }

  /** A capture: the caption, then a PNG image whose data decodes to the captured bytes. */
  lemma CapturedResponse(stdout: seq<Base64.uint8>)
    ensures var r := GetClipboardImage(true, Captured(stdout));
      |r.content| == 2 && r.content[0] == Text(CaptionText) &&
      r.content[1].Image? && r.content[1].mimeType == PngMimeType &&
      Base64.Decode(r.content[1].data) == Some(stdout)
  {
    Base64.DecodeEncode(stdout);
  }

  /**
   * A failed capture: one text part that starts with the error prefix, carries
   * the error's message and ends with the reminder to copy an image.
   */
  lemma CaptureFailedResponse(message: string)
    ensures var r := GetClipboardImage(true, CaptureFailed(message));
      |r.content| == 1 && r.content[0].Text? &&
      OccursAt(r.content[0].text, ErrorPrefix, 0) &&
      OccursAt(r.content[0].text, message, |ErrorPrefix|) &&
      OccursAt(r.content[0].text, ErrorSuffix, |r.content[0].text| - |ErrorSuffix|)
  {
  }
}
