/** The key under which a sync change is stored once: which changes share it, and why no
    two changes of one valid batch do. */
module DedupeKey {
  import opened Wrappers
  import opened PythonText
  import opened CanonicalJson
  import Utf8

  const BIGINT_MAX := 0x7FFF_FFFF_FFFF_FFFF
  const MAX_CHANGES := 500
  const SCHEMA_VERSION := 2

  datatype ChangeKind = Create | Update | Read | Delete

  function KindText(k: ChangeKind): string {
    match k
    case Create => "create"
    case Update => "update"
    case Read => "read"
    case Delete => "delete"
  }

  /** `hasItem`: whether the change carries the email; what is in it is not in the key. */
  datatype SyncChange = SyncChange(kind: ChangeKind, emailId: string, hasItem: bool, sourceVersion: Option<string>)

  // ---------------------------------------------------------------- folders

  function Lower(s: string): (r: string)
    ensures |r| == |s|
  {
    seq(|s|, i requires 0 <= i < |s| => if 'A' <= s[i] <= 'Z' then (s[i] as int + 32) as char else s[i])
  }

  predicate IsAscii(s: string) {
    forall i :: 0 <= i < |s| ==> s[i] as int < 0x80
  }

  function StandardFolder(lookup: string): Option<string> {
    if lookup == "archive" then Some("ARCHIVE")
    else if lookup in {"deleted", "deleted items", "deleteditems", "trash"} then Some("TRASH")
    else if lookup in {"draft", "drafts", "草稿"} then Some("DRAFTS")
    else if lookup == "inbox" then Some("INBOX")
    else if lookup in {"junk", "junk email", "junkemail", "spam"} then Some("JUNK")
    else if lookup == "outbox" then Some("OUTBOX")
    else if lookup in {"sent", "sent items", "sentitems", "已发送", "已发送邮件"} then Some("SENT")
    else None
  }

  function CanonicalFolder(identity: string): string {
    var known := StandardFolder(if IsAscii(identity) then Lower(identity) else identity);
    if known.Some? then known.value else identity
  }

  const STANDARD := {"ARCHIVE", "TRASH", "DRAFTS", "INBOX", "JUNK", "OUTBOX", "SENT"}

  lemma StandardIsCanonical(f: string)
    requires f in STANDARD
    ensures CanonicalFolder(f) == f
  {
    assert IsAscii(f);
    assert Lower("ARCHIVE") == "archive";
    assert Lower("TRASH") == "trash";
    assert Lower("DRAFTS") == "drafts";
    assert Lower("INBOX") == "inbox";
    assert Lower("JUNK") == "junk";
    assert Lower("OUTBOX") == "outbox";
    assert Lower("SENT") == "sent";
  }

  /** A folder name that normalisation produced is left alone by it. */
  lemma CanonicalFolderIsStable(identity: string)
    ensures CanonicalFolder(CanonicalFolder(identity)) == CanonicalFolder(identity)
  {
    var r := CanonicalFolder(identity);
    if r != identity {
      assert r in STANDARD;
      StandardIsCanonical(r);
    }
  }

  // ------------------------------------------------------------------- keys

  function KeyFields(account: int, kind: ChangeKind, emailId: string, folder: string, version: Option<string>,
                     cursor: string): Json
  {
    Obj(map["schema_version" := Int(SCHEMA_VERSION),
            "account_id" := Int(account),
            "source" := Str("sync"),
            "raw_event_type" := Str(KindText(kind)),
            "kind" := Str(KindText(kind)),
            "external_email_id" := Str(emailId),
            "folder" := Str(folder),
            "source_version" := if version.Some? then Str(version.value) else Null,
            "cursor" := Str(cursor)])
  }

  /** SHA-256 is taken to be injective, so a key is the bytes it digests. */
  ghost function KeyOf(account: int, kind: ChangeKind, emailId: string, folder: string, version: Option<string>,
                       cursor: string): seq<Utf8.Byte>
  {
    CanonicalBytes(KeyFields(account, kind, emailId, folder, version, cursor))
  }

  function RequireText(s: string, maxLength: nat, trim: bool): Option<string> {
    var candidate := if trim then Strip(s) else s;
    if candidate == "" || (!trim && candidate != Strip(candidate)) || |candidate| > maxLength
       || exists i :: 0 <= i < |candidate| && IsControl(candidate[i]) then None
    else Some(candidate)
  }

  /** Whether `normalize_sync_change` accepts a change, apart from what is in its item. */
  predicate IsAccepted(account: int, folder: string, cursor: string, c: SyncChange) {
    && 1 <= account <= BIGINT_MAX
    && RequireText(folder, 512, true).Some?
    && RequireText(cursor, 8192, false).Some?
    && RequireText(c.emailId, 1024, false).Some?
    && (c.sourceVersion.Some? ==> RequireText(c.sourceVersion.value, 512, false).Some?)
    && c.kind != Read
    && c.hasItem == (c.kind == Create || c.kind == Update)
  }

  function NormalFolder(folder: string): string {
    CanonicalFolder(Strip(folder))
  }

  ghost function DedupeKey(account: int, folder: string, cursor: string, c: SyncChange): seq<Utf8.Byte>
    requires IsAccepted(account, folder, cursor, c)
  {
    KeyOf(account, c.kind, c.emailId, NormalFolder(folder), c.sourceVersion, cursor)
  }

  lemma KindTextInjective(j: ChangeKind, k: ChangeKind)
    requires KindText(j) == KindText(k)
    ensures j == k
  {
    assert KindText(Create)[0] == 'c' && KindText(Update)[0] == 'u';
    assert KindText(Read)[0] == 'r' && KindText(Delete)[0] == 'd';
  }

  /** Two accepted changes share a key exactly when account, kind, email, canonical folder,
      source version and cursor agree. */
  lemma SameKeyIffSameChange(account: int, folder: string, cursor: string, c: SyncChange,
                             account': int, folder': string, cursor': string, c': SyncChange)
    requires IsAccepted(account, folder, cursor, c) && IsAccepted(account', folder', cursor', c')
    ensures DedupeKey(account, folder, cursor, c) == DedupeKey(account', folder', cursor', c') <==>
      && account == account' && c.kind == c'.kind && c.emailId == c'.emailId
      && NormalFolder(folder) == NormalFolder(folder')
      && c.sourceVersion == c'.sourceVersion && cursor == cursor'
  {
    SameFieldsIffSame(account, c.kind, c.emailId, NormalFolder(folder), c.sourceVersion, cursor,
                      account', c'.kind, c'.emailId, NormalFolder(folder'), c'.sourceVersion, cursor');
  }

  lemma SameFieldsIffSame(account: int, kind: ChangeKind, id: string, folder: string, version: Option<string>,
                          cursor: string,
                          account': int, kind': ChangeKind, id': string, folder': string, version': Option<string>,
                          cursor': string)
    ensures KeyOf(account, kind, id, folder, version, cursor) == KeyOf(account', kind', id', folder', version', cursor')
            <==> (account == account' && kind == kind' && id == id' && folder == folder' && version == version'
                  && cursor == cursor')
  {
    var v := KeyFields(account, kind, id, folder, version, cursor);
    var w := KeyFields(account', kind', id', folder', version', cursor');
    CanonicalBytesInjective(v, w);
    if v == w {
      assert v.members == w.members;
      assert v.members["account_id"] == Int(account) && w.members["account_id"] == Int(account');
      assert v.members["kind"] == Str(KindText(kind)) && w.members["kind"] == Str(KindText(kind'));
      assert v.members["external_email_id"] == Str(id) && w.members["external_email_id"] == Str(id');
      assert v.members["folder"] == Str(folder) && w.members["folder"] == Str(folder');
      assert v.members["source_version"] == if version.Some? then Str(version.value) else Null;
      assert w.members["source_version"] == if version'.Some? then Str(version'.value) else Null;
      assert v.members["cursor"] == Str(cursor) && w.members["cursor"] == Str(cursor');
      KindTextInjective(kind, kind');
    }
  }

  // ---------------------------------------------------------------- batches

  function Identities(changes: seq<SyncChange>): (r: seq<(ChangeKind, string)>)
    ensures |r| == |changes|
    ensures forall i :: 0 <= i < |r| ==> r[i] == (changes[i].kind, changes[i].emailId)
  {
    seq(|changes|, i requires 0 <= i < |changes| => (changes[i].kind, changes[i].emailId))
  }

  /** The page-identity rule: as many different identities as changes. */
  predicate IsBatch(changes: seq<SyncChange>) {
    && |changes| <= MAX_CHANGES
    && |Identities(changes)| == |set i | i in Identities(changes)|
  }

  lemma {:induction false} CountedDistinct<T>(s: seq<T>)
    ensures |set x | x in s| <= |s|
    ensures |set x | x in s| == |s| ==> forall i, j :: 0 <= i < j < |s| ==> s[i] != s[j]
  {
    if s != [] {
      var n := |s| - 1;
      var front := set x | x in s[..n];
      CountedDistinct(s[..n]);
      assert (set x | x in s) == front + {s[n]};
      if s[n] in front {
        assert (set x | x in s) == front;
      } else if |set x | x in s| == |s| {
        forall i, j | 0 <= i < j < |s|
          ensures s[i] != s[j]
        {
          if j == n {
            assert s[..n][i] in front;
          } else {
            assert s[..n][i] != s[..n][j];
          }
        }
      }
    }
  }

  /** No two changes of one valid batch collapse into one stored event. */
  lemma BatchNeverCollapses(account: int, folder: string, cursor: string, changes: seq<SyncChange>, i: nat, j: nat)
    requires IsBatch(changes) && i < j < |changes|
    requires IsAccepted(account, folder, cursor, changes[i]) && IsAccepted(account, folder, cursor, changes[j])
    ensures DedupeKey(account, folder, cursor, changes[i]) != DedupeKey(account, folder, cursor, changes[j])
  {
    CountedDistinct(Identities(changes));
    assert Identities(changes)[i] != Identities(changes)[j];
    SameKeyIffSameChange(account, folder, cursor, changes[i], account, folder, cursor, changes[j]);
  }
}
