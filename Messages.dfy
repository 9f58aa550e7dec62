/** The OpenAI-style message shape every modelled component exchanges:
    `{"role": ..., "content": str | list[part]}`. */
module Messages {

  /** One element of a multipart content list. */
  datatype Part =
    | TextPart(text: string)                      // {"type": "text", "text": ...}; a missing text reads as ""
    | ImageUrlPart(url: string)                   // {"type": "image_url", "image_url": {"url": ...}}; a missing url reads as ""
    | ImageBlock(mediaType: string, data: string) // {"type": "image", "source": {"type": "base64", ...}}
    | OtherPart(raw: string)                      // any other dict (its JSON text, kept only for identity)
    | NonDictPart(raw: string)                    // a list element that is not a dict

  /** Message content: a plain string or a multipart list. */
  datatype Content = Text(s: string) | Parts(parts: seq<Part>)

  datatype Message = Message(role: string, content: Content)

  const SYSTEM: string := "system"
  const USER: string := "user"
  const ASSISTANT: string := "assistant"
}
