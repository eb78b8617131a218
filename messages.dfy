/**
 * The reply bodies the bot posts to the messaging platform's reply endpoint
 * (`TarotHandler::get_msg_body`, `TarotHandler::get_image_body` and the
 * `replyToken` insertion of `send_reply`). A body is a JSON object with a
 * `messages` array and, once addressed, a `replyToken` string.
 */
module Messages {
  import opened Wrappers

  datatype Message =
    | Text(text: string)
    | Image(originalContentUrl: string, previewImageUrl: string)

  datatype Body = Body(messages: seq<Message>, replyToken: Option<string>)

  /** The text of a body that consists of a text message, optionally followed by one image. */
  function TextOf(b: Body): Option<string>
  {
    if 1 <= |b.messages| <= 2 && b.messages[0].Text? then Some(b.messages[0].text) else None
  }

  /** The image link of a body made of one text message and one image whose two URLs agree. */
  function ImageUrlOf(b: Body): Option<string>
  {
    if |b.messages| == 2 && b.messages[0].Text? && b.messages[1].Image?
       && b.messages[1].originalContentUrl == b.messages[1].previewImageUrl
    then Some(b.messages[1].originalContentUrl)
    else None
  }

  /** A body holding exactly one text message and no reply token yet. */
  function MsgBody(msg: string): (b: Body)
    ensures TextOf(b) == Some(msg) && ImageUrlOf(b) == None
    ensures |b.messages| == 1 && b.replyToken == None
  {
    Body([Text(msg)], None)
  }

  /** A body holding a text message followed by one image shown at `url` both in
      full size and as preview, and no reply token yet. */
  function ImageBody(msg: string, url: string): (b: Body)
    ensures TextOf(b) == Some(msg) && ImageUrlOf(b) == Some(url)
    ensures |b.messages| == 2 && b.replyToken == None
  {
    Body([Text(msg), Image(url, url)], None)
  }

  /** The body `send_reply` posts: `replyToken` inserted (or overwritten), every message kept. */
  function WithReplyToken(b: Body, token: string): (r: Body)
    ensures r.messages == b.messages
    ensures r.replyToken == Some(token)
    ensures TextOf(r) == TextOf(b) && ImageUrlOf(r) == ImageUrlOf(b)
  {
    b.(replyToken := Some(token))
  }
}
