/**
 * Model of cogs/message_delete_logger.py: a message deleted by moderation
 * (someone other than its author, found in the guild's audit log) is logged
 * to the log channel. The audit log is the input sequence `entries`, newest
 * first; times are integers in microseconds (the resolution of Python's
 * `datetime`); the embed is reduced to the fields the model reasons about.
 */
module MessageDeleteLogger {

  import opened Wrappers
  import Text

  const LogChannelId := 1445365655237955594
  /** The largest age, in seconds, of an audit entry that still matches the deletion. */
  const AuditLogLookbackSeconds := 10
  const MicrosPerSecond := 1000000
  /** `guild.audit_logs(limit=10, ...)`: at most ten entries are read. */
  const AuditLimit := 10

  /** The largest length of an embed field value that is kept as is. */
  const FieldLimit := 1024
  /** How much of a too-long text is kept before the truncation marker. */
  const KeptLength := 1000
  const TruncationMarker := "\n...[tronqué]"
  const NoText := "*[aucun texte]*"

  // ---------------- field truncation ----------------

  /** A too-long field keeps its first 1000 characters and gets the truncation marker. */
  function Truncate(s: string): string {
    if |s| > FieldLimit then s[..KeptLength] + TruncationMarker else s
  }

  /** Truncation keeps a short text, cuts a long one to its first 1000 characters plus the marker, and never exceeds 1024 characters. */
  lemma TruncateSpec(s: string)
    ensures |Truncate(s)| <= FieldLimit
    ensures |s| <= FieldLimit ==> Truncate(s) == s
    ensures |s| > FieldLimit ==> Truncate(s)[..KeptLength] == s[..KeptLength] && Text.EndsWith(Truncate(s), TruncationMarker)
  {
    if |s| > FieldLimit {
      var r := Truncate(s);
      assert |TruncationMarker| == 13;
      assert r[|r| - |TruncationMarker|..] == TruncationMarker;
    }
  }

  /** Truncation is idempotent: a truncated field is short enough to be kept. */
  lemma TruncateIdempotent(s: string)
    ensures Truncate(Truncate(s)) == Truncate(s)
  {
    TruncateSpec(s);
  }

  /** The "Contenu" field: the content, or a placeholder when empty, truncated. */
  function ContentField(content: string): string {
    Truncate(if content == "" then NoText else content)
  }

  /** An empty message shows the placeholder; a message of at most 1024 characters is shown whole; every field fits. */
  lemma ContentFieldSpec(content: string)
    ensures content == [] ==> ContentField(content) == NoText
    ensures 0 < |content| <= FieldLimit ==> ContentField(content) == content
    ensures |ContentField(content)| <= FieldLimit
    ensures |content| > FieldLimit ==> ContentField(content)[..KeptLength] == content[..KeptLength]
  {
    TruncateSpec(if content == "" then NoText else content);
  }

  /** The "Pièces jointes" field: absent without attachments, else their URLs one per line, truncated like the content. */
  function AttachmentsField(urls: seq<string>): Option<string> {
    if urls == [] then None else Some(Truncate(Text.Join(urls, "\n")))
  }

  lemma AttachmentsFieldSpec(urls: seq<string>)
    ensures AttachmentsField(urls).Some? <==> urls != []
    ensures urls != [] ==> |AttachmentsField(urls).value| <= FieldLimit
    ensures urls != [] && |Text.Join(urls, "\n")| <= FieldLimit ==> AttachmentsField(urls) == Some(Text.Join(urls, "\n"))
  {
    if urls != [] {
      TruncateSpec(Text.Join(urls, "\n"));
    }
  }

  // ---------------- matching the audit log ----------------

  /**
   * A message-delete audit entry: who deleted (`user`), whose message it was
   * (`target`), the channel when the entry records one, and when it was made.
   */
  datatype AuditEntry = AuditEntry(user: int, target: int, channel: Option<int>, createdAt: int)

  /**
   * The entry matches the deletion: it targets the author, its channel (when
   * recorded) is the message's, and it is not more than 10 seconds older
   * than the deletion.
   */
  predicate Matches(e: AuditEntry, authorId: int, channelId: int, deletionTime: int) {
    && e.target == authorId
    && (e.channel.None? || e.channel.value == channelId)
    && !(deletionTime - e.createdAt > AuditLogLookbackSeconds * MicrosPerSecond)
  }

  /** An entry exactly 10 seconds old still matches; one a microsecond older does not. */
  lemma LookbackBoundary(user: int, authorId: int, channelId: int, deletionTime: int)
    ensures Matches(AuditEntry(user, authorId, None, deletionTime - 10 * MicrosPerSecond), authorId, channelId, deletionTime)
    ensures !Matches(AuditEntry(user, authorId, None, deletionTime - 10 * MicrosPerSecond - 1), authorId, channelId, deletionTime)
  {
  }

  /** The deleter of the first matching entry, if any. */
  function FirstMatch(entries: seq<AuditEntry>, authorId: int, channelId: int, deletionTime: int): Option<int>
    decreases |entries|
  {
    if entries == [] then None
    else if Matches(entries[0], authorId, channelId, deletionTime) then Some(entries[0].user)
    else FirstMatch(entries[1..], authorId, channelId, deletionTime)
  }

  /** The entries read: the first ten. */
  function Read(entries: seq<AuditEntry>): seq<AuditEntry> {
    if |entries| <= AuditLimit then entries else entries[..AuditLimit]
  }

  /**
   * The first match is found exactly when some entry matches, and it is the
   * deleter of the earliest matching entry: every entry before it fails.
   */
  lemma {:induction false} FirstMatchSpec(entries: seq<AuditEntry>, authorId: int, channelId: int, deletionTime: int)
    ensures FirstMatch(entries, authorId, channelId, deletionTime).None?
      <==> forall i :: 0 <= i < |entries| ==> !Matches(entries[i], authorId, channelId, deletionTime)
    ensures FirstMatch(entries, authorId, channelId, deletionTime).Some? ==>
      exists k :: 0 <= k < |entries| && Matches(entries[k], authorId, channelId, deletionTime)
        && entries[k].user == FirstMatch(entries, authorId, channelId, deletionTime).value
        && forall i :: 0 <= i < k ==> !Matches(entries[i], authorId, channelId, deletionTime)
    decreases |entries|
  {
    if entries != [] && !Matches(entries[0], authorId, channelId, deletionTime) {
      var rest := entries[1..];
      FirstMatchSpec(rest, authorId, channelId, deletionTime);
      if FirstMatch(rest, authorId, channelId, deletionTime).Some? {
        var k :| 0 <= k < |rest| && Matches(rest[k], authorId, channelId, deletionTime)
          && rest[k].user == FirstMatch(rest, authorId, channelId, deletionTime).value
          && forall i :: 0 <= i < k ==> !Matches(rest[i], authorId, channelId, deletionTime);
        assert entries[k + 1] == rest[k];
        forall i | 0 <= i < k + 1
          ensures !Matches(entries[i], authorId, channelId, deletionTime)
        {
          if i > 0 {
            assert entries[i] == rest[i - 1];
          }
        }
      }
      forall i | 1 <= i < |entries|
        ensures entries[i] == rest[i - 1]
      {
      }
    }
  }

  /**
   * `_find_message_deleter`: nothing without the audit-log permission;
   * otherwise the deleter of the first of the (at most ten) entries read
   * that matches, or nothing. A Forbidden or HTTP error raised while
   * reading ends the scan with nothing; since a match returns at once, the
   * result is the first match among the entries read before the error, so
   * the error is modelled by a shorter `entries`.
   */
  method FindMessageDeleter(canViewAuditLog: bool, entries: seq<AuditEntry>,
                            authorId: int, channelId: int, deletionTime: int) returns (deleter: Option<int>)
    ensures !canViewAuditLog ==> deleter == None
    ensures canViewAuditLog ==> deleter == FirstMatch(Read(entries), authorId, channelId, deletionTime)
  {
    if !canViewAuditLog {
      return None;
    }
    var read := Read(entries);
    for i := 0 to |read|
      invariant FirstMatch(read[i..], authorId, channelId, deletionTime) == FirstMatch(read, authorId, channelId, deletionTime)
    {
      var e := read[i];
      assert read[i..][1..] == read[i + 1..];
      if e.target != authorId {
        continue;
      }
      if e.channel.Some? && e.channel.value != channelId {
        continue;
      }
      if deletionTime - e.createdAt > AuditLogLookbackSeconds * MicrosPerSecond {
        continue;
      }
      return Some(e.user);
    }
    return None;
  }

  // ---------------- the listener ----------------

  /** A deleted message, as the listener sees it. */
  datatype DeletedMessage = DeletedMessage(
    guildId: Option<int>,
    authorId: int,
    authorIsBot: bool,
    channelId: int,
    content: string,
    attachmentUrls: seq<string>)

  /** The log entry posted in the log channel. */
  datatype LogEntry = LogEntry(
    authorId: int,
    deleterId: int,
    channelId: int,
    deletionTime: int,
    content: string,
    attachments: Option<string>)

  /** `_send_log`: the logged fields of a deleted message. */
  function BuildLog(m: DeletedMessage, deleter: int, deletionTime: int): LogEntry {
    LogEntry(m.authorId, deleter, m.channelId, deletionTime, ContentField(m.content), AttachmentsField(m.attachmentUrls))
  }

  /**
   * `on_message_delete`: direct messages, bot authors and guilds without the
   * log channel are ignored, and so is a deletion with no matching audit
   * entry (taken as deleted by its author); otherwise the log entry is posted.
   */
  method OnMessageDelete(m: DeletedMessage, guildChannels: set<int>, canViewAuditLog: bool,
                         entries: seq<AuditEntry>, deletionTime: int) returns (logged: Option<LogEntry>)
    ensures m.guildId.None? || m.authorIsBot || LogChannelId !in guildChannels ==> logged == None
    ensures logged.Some? <==>
      && m.guildId.Some? && !m.authorIsBot && LogChannelId in guildChannels
      && canViewAuditLog
      && FirstMatch(Read(entries), m.authorId, m.channelId, deletionTime).Some?
    ensures logged.Some? ==>
      logged.value == BuildLog(m, FirstMatch(Read(entries), m.authorId, m.channelId, deletionTime).value, deletionTime)
  {
    if m.guildId.None? {
      return None;
    }
    if m.authorIsBot {
      return None;
    }
    if LogChannelId !in guildChannels {
      return None;
    }
    var deleter := FindMessageDeleter(canViewAuditLog, entries, m.authorId, m.channelId, deletionTime);
    if deleter.None? {
      return None;
    }
    logged := Some(BuildLog(m, deleter.value, deletionTime));
  }

  /** Whatever is logged fits Discord's field limit. */
  lemma LoggedFieldsFit(m: DeletedMessage, deleter: int, deletionTime: int)
    ensures |BuildLog(m, deleter, deletionTime).content| <= FieldLimit
    ensures BuildLog(m, deleter, deletionTime).attachments.Some? ==> |BuildLog(m, deleter, deletionTime).attachments.value| <= FieldLimit
  {
    ContentFieldSpec(m.content);
    AttachmentsFieldSpec(m.attachmentUrls);
  }
}
