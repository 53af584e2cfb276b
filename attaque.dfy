/**
 * Model of cogs/attaque.py: the `/attaque` declaration. The author picks
 * co-op players and names the attacked guild; screenshots are posted in a
 * thread, and the Publish button collects at most three image attachments
 * from the thread's history (newest message first, attachments in order)
 * and posts the final embed in the origin channel. The thread history is
 * the input sequence `history`, one entry per message holding that
 * message's attachments; Discord I/O is left out.
 */
module Attaque {

  import opened Wrappers
  import Text

  const MaxCoop := 5
  const MaxImages := 3
  /** `history(limit=200)`: at most the 200 newest messages are visited. */
  const HistoryLimit := 200

  /** An attachment: its URL, its content type and its file name, either of which may be missing. */
  datatype Attachment = Attachment(url: string, contentType: Option<string>, filename: Option<string>)

  const ImageExtensions: seq<string> := [".png", ".jpg", ".jpeg", ".webp", ".gif"]

  /**
   * An attachment is an image when its content type starts with "image", or,
   * failing that, when its lower-cased file name ends in one of the image
   * extensions.
   */
  predicate IsImage(a: Attachment) {
    (a.contentType.Some? && Text.StartsWith(a.contentType.value, "image"))
    || exists e :: e in ImageExtensions && Text.EndsWith(Text.Lower(a.filename.GetOr("")), e)
  }

  /**
   * Without a content type the file name is matched case-insensitively: a
   * name and its lower-case form are judged alike.
   */
  lemma NameCaseInsensitive(url: string, name: string)
    ensures IsImage(Attachment(url, None, Some(name))) <==> IsImage(Attachment(url, None, Some(Text.Lower(name))))
  {
    Text.LowerIdempotent(name);
  }

  /** A content type that does not start with "image" counts for nothing: the file name decides. */
  lemma NonImageTypeFallsBack(url: string, contentType: string, name: Option<string>)
    requires !Text.StartsWith(contentType, "image")
    ensures IsImage(Attachment(url, Some(contentType), name)) <==> IsImage(Attachment(url, None, name))
  {
  }

  /** For example, a capital extension is accepted when the content type is missing. */
  lemma CapitalExtensionAccepted()
    ensures IsImage(Attachment("u", None, Some("SHOT.PNG")))
  {
    var a := Attachment("u", None, Some("SHOT.PNG"));
    assert a.filename.GetOr("") == "SHOT.PNG";
    var name := Text.Lower("SHOT.PNG");
    assert name == "shot.png";
    assert ".png" in ImageExtensions && Text.EndsWith(name, ".png");
  }

  /** For example, a video with a video file name is refused. */
  lemma VideoRefused()
    ensures !IsImage(Attachment("u", Some("video/mp4"), Some("clip.mp4")))
  {
    var name := Text.Lower("clip.mp4");
    assert name == "clip.mp4";
    assert !Text.StartsWith("video/mp4", "image") by {
      assert "video/mp4"[..5][0] == 'v';
    }
    forall e | e in ImageExtensions
      ensures !Text.EndsWith(name, e)
    {
      assert name[|name| - 1] == '4';
      assert e[|e| - 1] != '4';
    }
  }

  // ---------------- the collection, as a specification ----------------

  /** The messages visited: the first 200 of the history. */
  function Window(history: seq<seq<Attachment>>): (w: seq<seq<Attachment>>)
    ensures w <= history
    ensures |w| == if |history| <= HistoryLimit then |history| else HistoryLimit
  {
    if |history| <= HistoryLimit then history else history[..HistoryLimit]
  }

  /** The attachments of the messages, in visiting order. */
  function Flatten(ms: seq<seq<Attachment>>): seq<Attachment>
    decreases |ms|
  {
    if ms == [] then [] else Flatten(ms[..|ms| - 1]) + ms[|ms| - 1]
  }

  /** The URLs of the image attachments, in order. */
  function ImageUrls(atts: seq<Attachment>): seq<string>
    decreases |atts|
  {
    if atts == [] then []
    else ImageUrls(atts[..|atts| - 1]) + (if IsImage(atts[|atts| - 1]) then [atts[|atts| - 1].url] else [])
  }

  /** The first `n` elements, or all of them when there are fewer. */
  function Prefix(s: seq<string>, n: nat): (r: seq<string>)
    ensures |r| <= n && r <= s
    ensures |s| <= n ==> r == s
    ensures |s| >= n ==> |r| == n
  {
    if |s| <= n then s else s[..n]
  }

  /** What Publish collects: the first three image URLs of the visited messages. */
  function Collected(history: seq<seq<Attachment>>): seq<string> {
    Prefix(ImageUrls(Flatten(Window(history))), MaxImages)
  }

  lemma {:induction false} FlattenConcat(a: seq<seq<Attachment>>, b: seq<seq<Attachment>>)
    ensures Flatten(a + b) == Flatten(a) + Flatten(b)
    decreases |b|
  {
    if b != [] {
      var b' := b[..|b| - 1];
      assert (a + b)[..|a + b| - 1] == a + b';
      FlattenConcat(a, b');
    } else {
      assert a + b == a;
    }
  }

  lemma {:induction false} ImageUrlsConcat(a: seq<Attachment>, b: seq<Attachment>)
    ensures ImageUrls(a + b) == ImageUrls(a) + ImageUrls(b)
    decreases |b|
  {
    if b != [] {
      var b' := b[..|b| - 1];
      assert (a + b)[..|a + b| - 1] == a + b';
      ImageUrlsConcat(a, b');
    } else {
      assert a + b == a;
    }
  }

  /** A URL is collected from a list exactly when some image attachment of the list has it. */
  lemma {:induction false} ImageUrlsMembers(atts: seq<Attachment>, u: string)
    ensures u in ImageUrls(atts) <==> exists a :: a in atts && IsImage(a) && a.url == u
    decreases |atts|
  {
    if atts != [] {
      var init := atts[..|atts| - 1];
      ImageUrlsMembers(init, u);
      assert atts == init + [atts[|atts| - 1]];
      if exists a :: a in atts && IsImage(a) && a.url == u {
        var a :| a in atts && IsImage(a) && a.url == u;
        if a != atts[|atts| - 1] {
          assert a in init;
        }
      }
    }
  }

  /** Once three URLs are collected, further attachments change nothing. */
  lemma UrlsSaturated(pre: seq<Attachment>, rest: seq<Attachment>)
    requires |Prefix(ImageUrls(pre), MaxImages)| >= MaxImages
    ensures Prefix(ImageUrls(pre + rest), MaxImages) == Prefix(ImageUrls(pre), MaxImages)
  {
    ImageUrlsConcat(pre, rest);
    var s := ImageUrls(pre);
    assert (s + ImageUrls(rest))[..MaxImages] == s[..MaxImages];
  }

  /**
   * At most three URLs are collected; they are image URLs of visited
   * attachments, in visiting order; when the visited messages hold at most
   * three images, all of them are collected.
   */
  lemma CollectedSpec(history: seq<seq<Attachment>>)
    ensures |Collected(history)| <= MaxImages
    ensures Collected(history) <= ImageUrls(Flatten(Window(history)))
    ensures |ImageUrls(Flatten(Window(history)))| <= MaxImages ==> Collected(history) == ImageUrls(Flatten(Window(history)))
    ensures |ImageUrls(Flatten(Window(history)))| >= MaxImages ==> |Collected(history)| == MaxImages
    ensures forall u :: u in Collected(history) ==> exists a :: a in Flatten(Window(history)) && IsImage(a) && a.url == u
  {
    forall u | u in Collected(history)
      ensures exists a :: a in Flatten(Window(history)) && IsImage(a) && a.url == u
    {
      ImageUrlsMembers(Flatten(Window(history)), u);
    }
  }

  // ---------------- the collection loop ----------------

  /**
   * The image-collection loop of `publish`: messages newest first, each
   * message's attachments in order, stopping once three URLs are held.
   * A failure while fetching the history keeps what was collected; it is
   * modelled by a shorter history.
   */
  method CollectImages(history: seq<seq<Attachment>>) returns (imgs: seq<string>)
    ensures imgs == Collected(history)
  {
    var window := Window(history);
    imgs := [];
    var i := 0;
    while i < |window|
      invariant 0 <= i <= |window|
      invariant imgs == Prefix(ImageUrls(Flatten(window[..i])), MaxImages)
      invariant |imgs| < MaxImages
    {
      FlattenStep(window, i);
      imgs := CollectFromMessage(imgs, Flatten(window[..i]), window[i]);
      if |imgs| >= MaxImages {
        WindowSaturated(window, i);
        return;
      }
      i := i + 1;
    }
    assert window[..i] == window;
  }

  /** The attachments of the first `i + 1` messages: those of the first `i`, then message `i`'s. */
  lemma FlattenStep(window: seq<seq<Attachment>>, i: nat)
    requires i < |window|
    ensures Flatten(window[..i + 1]) == Flatten(window[..i]) + window[i]
  {
    assert window[..i + 1][..i] == window[..i];
  }

  /** Once three URLs are held after message `i`, the later messages add nothing. */
  lemma WindowSaturated(window: seq<seq<Attachment>>, i: nat)
    requires i < |window|
    requires |Prefix(ImageUrls(Flatten(window[..i + 1])), MaxImages)| >= MaxImages
    ensures Prefix(ImageUrls(Flatten(window)), MaxImages) == Prefix(ImageUrls(Flatten(window[..i + 1])), MaxImages)
  {
    UrlsSaturated(Flatten(window[..i + 1]), Flatten(window[i + 1..]));
    FlattenConcat(window[..i + 1], window[i + 1..]);
    assert window[..i + 1] + window[i + 1..] == window;
  }

  /** One more attachment, while fewer than three URLs are held, is appended if it is an image. */
  lemma CollectStep(out: seq<string>, pre: seq<Attachment>, atts: seq<Attachment>, j: nat)
    requires j < |atts| && |out| < MaxImages
    requires out == Prefix(ImageUrls(pre + atts[..j]), MaxImages)
    ensures out + (if IsImage(atts[j]) then [atts[j].url] else []) == Prefix(ImageUrls(pre + atts[..j + 1]), MaxImages)
  {
    assert (pre + atts[..j + 1])[..|pre + atts[..j + 1]| - 1] == pre + atts[..j];
  }

  /** The inner loop of `publish`: one message's attachments, in order, until three URLs are held. */
  method CollectFromMessage(imgs: seq<string>, ghost pre: seq<Attachment>, atts: seq<Attachment>) returns (out: seq<string>)
    requires imgs == Prefix(ImageUrls(pre), MaxImages)
    ensures out == Prefix(ImageUrls(pre + atts), MaxImages)
  {
    out := imgs;
    var j := 0;
    assert pre + atts[..0] == pre;
    while j < |atts|
      invariant 0 <= j <= |atts|
      invariant out == Prefix(ImageUrls(pre + atts[..j]), MaxImages)
    {
      if |out| >= MaxImages {
        break;
      }
      CollectStep(out, pre, atts, j);
      if IsImage(atts[j]) {
        out := out + [atts[j].url];
      }
      j := j + 1;
    }
    if j < |atts| {
      UrlsSaturated(pre + atts[..j], atts[j..]);
      assert pre + atts[..j] + atts[j..] == pre + atts;
    } else {
      assert atts[..j] == atts;
    }
  }

  // ---------------- the published embed ----------------

  /** `<@id>`: the mention of a user. */
  function UserMention(userId: int): string {
    "<@" + Text.IntToString(userId) + ">"
  }

  function CoopLine(coops: seq<int>): string {
    "🧑‍🤝‍🧑 **Coéquipiers :** " + Text.Join(Mentions(coops), ", ")
  }

  function GuildLine(guildName: string): string {
    "🛡️ **Guilde/Alliance attaquée :** " + guildName
  }

  /** The mentions of the co-op players, in the order they were selected. */
  function Mentions(coops: seq<int>): (r: seq<string>)
    ensures |r| == |coops|
    ensures forall i :: 0 <= i < |coops| ==> r[i] == UserMention(coops[i])
  {
    seq(|coops|, i requires 0 <= i < |coops| => UserMention(coops[i]))
  }

  /** The description lines: the co-op line when there are co-op players, then the attacked-guild line. */
  function DescriptionLines(coops: seq<int>, guildName: string): seq<string> {
    (if coops != [] then [CoopLine(coops)] else []) + [GuildLine(guildName)]
  }

  /** The attacked-guild line is always present and last; the co-op line is there exactly when the co-op list is non-empty, and first. */
  lemma DescriptionShape(coops: seq<int>, guildName: string)
    ensures var lines := DescriptionLines(coops, guildName);
      && lines[|lines| - 1] == GuildLine(guildName)
      && (|lines| == 2 <==> coops != [])
      && (|lines| == 1 <==> coops == [])
      && (coops != [] ==> lines[0] == CoopLine(coops))
  {
  }

  /** `[Capture n](url)`. */
  function CaptureLine(n: nat, url: string): string {
    "[Capture " + Text.NatToString(n) + "](" + url + ")"
  }

  /** The capture links of `urls`, numbered from `n`. */
  function CaptureLinksFrom(urls: seq<string>, n: nat): seq<string>
    decreases |urls|
  {
    if urls == [] then [] else [CaptureLine(n, urls[0])] + CaptureLinksFrom(urls[1..], n + 1)
  }

  /** The links under the embed image: every image but the first, numbered from 2 (`enumerate(imgs[1:], start=1)`, then `i+1`). */
  function CaptureLinks(imgs: seq<string>): seq<string>
    requires imgs != []
  {
    CaptureLinksFrom(imgs[1..], 2)
  }

  lemma {:induction false} CaptureLinksFromSpec(urls: seq<string>, n: nat)
    ensures |CaptureLinksFrom(urls, n)| == |urls|
    ensures forall j :: 0 <= j < |urls| ==> CaptureLinksFrom(urls, n)[j] == CaptureLine(n + j, urls[j])
    decreases |urls|
  {
    if urls != [] {
      CaptureLinksFromSpec(urls[1..], n + 1);
      forall j | 1 <= j < |urls|
        ensures CaptureLinksFrom(urls, n)[j] == CaptureLine(n + j, urls[j])
      {
        assert CaptureLinksFrom(urls, n)[j] == CaptureLinksFrom(urls[1..], n + 1)[j - 1];
      }
    }
  }

  /** With k images the links are "Capture 2" to "Capture k", the i-th link pointing at the (i+1)-th image. */
  lemma CaptureNumbering(imgs: seq<string>)
    requires imgs != []
    ensures |CaptureLinks(imgs)| == |imgs| - 1
    ensures forall j :: 0 <= j < |imgs| - 1 ==> CaptureLinks(imgs)[j] == CaptureLine(j + 2, imgs[j + 1])
  {
    CaptureLinksFromSpec(imgs[1..], 2);
  }

  /** The final alert: title, description, footer, the embed image and the "other captures" field. */
  datatype AttackEmbed = AttackEmbed(
    title: string,
    description: string,
    footer: string,
    image: Option<string>,
    otherCaptures: Option<string>)

  /** The state a Publish button was created with. */
  datatype PublishView = PublishView(
    authorName: string,
    coops: seq<int>,
    guildName: string,
    originChannel: int,
    originThread: int)

  function BuildEmbed(view: PublishView, imgs: seq<string>): AttackEmbed {
    AttackEmbed(
      "⚔️ Attaque lancée par " + view.authorName,
      Text.Join(DescriptionLines(view.coops, view.guildName), "\n"),
      "Publié par " + view.authorName,
      if imgs == [] then None else Some(imgs[0]),
      if |imgs| > 1 then Some(Text.Join(CaptureLinks(imgs), "\n")) else None)
  }

  /** The first image is the embed image; the other-captures field is there exactly when there are two images or more. */
  lemma EmbedImages(view: PublishView, imgs: seq<string>)
    ensures BuildEmbed(view, imgs).image.Some? <==> imgs != []
    ensures imgs != [] ==> BuildEmbed(view, imgs).image == Some(imgs[0])
    ensures BuildEmbed(view, imgs).otherCaptures.Some? <==> |imgs| >= 2
  {
  }

  /** What pressing Publish answers. */
  datatype PublishReply = NotInThread | SendFailed | Published(embed: AttackEmbed)

  /**
   * `PublishView.publish`: refused unless pressed inside the origin thread
   * (`channelId` is the channel of the interaction, if any); otherwise the
   * images are collected and the embed is posted in the origin channel,
   * `sendOk` saying whether that send went through.
   */
  method Publish(view: PublishView, channelId: Option<int>, history: seq<seq<Attachment>>, sendOk: bool)
    returns (reply: PublishReply)
    ensures channelId != Some(view.originThread) ==> reply == NotInThread
    ensures channelId == Some(view.originThread) && !sendOk ==> reply == SendFailed
    ensures channelId == Some(view.originThread) && sendOk ==> reply == Published(BuildEmbed(view, Collected(history)))
  {
    if channelId.None? || channelId.value != view.originThread {
      return NotInThread;
    }
    var imgs := CollectImages(history);
    if !sendOk {
      return SendFailed;
    }
    reply := Published(BuildEmbed(view, imgs));
  }
}
