/** The tables of this deployment, and idempotence for them. */
module DeploymentScheme {
  import opened Sequences
  import opened PythonText
  import opened DotEnv
  import opened DeploymentConfiguration

  const USER_KEYS := [
    "EXTERNAL_URL",
    "EXCHANGE_API_URL", "EXCHANGE_API_KEY", "EXCHANGE_ACCOUNT_ID", "EXCHANGE_ACCOUNT_EMAIL",
    "LARK_APP_ID", "LARK_APP_SECRET", "LARK_ENCRYPT_KEY", "LARK_CHAT_ID", "LARK_ALLOWED_OPEN_IDS",
    "OPENAI_API_KEY", "OPENAI_API_BASE", "LLM_MODEL",
    "EMBEDDING_API_KEY", "EMBEDDING_BASE_URL", "EMBEDDING_MODEL"]

  const SECTIONS := [
    Section("Service", USER_KEYS[0..1]),
    Section("Exchange", USER_KEYS[1..5]),
    Section("Lark", USER_KEYS[5..10]),
    Section("LLM", USER_KEYS[10..13]),
    Section("Embedding", USER_KEYS[13..16])]

  const TITLE := Phrase(["# AI Exchange user", " configuration"])
  const SCOPE := Phrase(["# Keep only these", " 16 integration", " and model settings."])
  const ORIGIN := Phrase(["# Internal", " credentials and", " runtime controls", " are generated", " automatically."])

  const PREAMBLE := [TITLE, SCOPE, ORIGIN, ""]

  const ADVANCED_DEFAULTS := [
    ("APP_PORT", "8000"),
    ("LOG_LEVEL", "INFO"),
    ("LARK_DRIVE_FOLDER_TOKEN", ""),
    ("EXCHANGE_FOLDERS_FULL", "收件箱"),
    ("EXCHANGE_FOLDERS_ARCHIVE", ""),
    ("EXCHANGE_FOLDER_SENTITEMS", "Sent Items"),
    ("EXCHANGE_FOLDER_DRAFTS", "Drafts"),
    ("LEADER_SENDERS", ""),
    ("EXCHANGE_TLS_HOSTNAME", ""),
    ("EXCHANGE_TLS_IP", ""),
    ("EXCHANGE_CA_FILE_HOST", "")]

  const LEGACY_ROLE_FIELDS := [
    ("POSTGRES_ADMIN_USER", "ai_exchange_admin"),
    ("POSTGRES_RUNTIME_USER", "ai_exchange_runtime"),
    ("POSTGRES_MIGRATION_OWNER_ROLE", "ai_exchange_migration_owner"),
    ("POSTGRES_MAINTENANCE_ROLE", "ai_exchange_checkpoint_maintenance"),
    ("POSTGRES_CHECKPOINT_AUDITOR_ROLE", "ai_exchange_checkpoint_auditor"),
    ("POSTGRES_DB", "email_agent"),
    ("POSTGRES_SCHEMA", "public")]

  const TLS_FIELD := "EXCHANGE_SSL_VERIFY"

  const SCHEME := Scheme(PREAMBLE, SECTIONS, ADVANCED_DEFAULTS, LEGACY_ROLE_FIELDS, TLS_FIELD)

  predicate IsPlainKey(s: string) {
    && 1 <= |s| <= 63
    && ('A' <= s[0] <= 'Z' || s[0] == '_')
    && forall i :: 0 <= i < |s| ==> 'A' <= s[i] <= 'Z' || IsDigit(s[i]) || s[i] == '_'
  }

  lemma {:induction false} PlainFolds(s: string)
    requires forall i :: 0 <= i < |s| ==> 'A' <= s[i] <= 'Z' || IsDigit(s[i]) || s[i] == '_'
    ensures |FoldAll(s)| == |s|
    ensures forall i :: 0 <= i < |s| ==> FoldAll(s)[i] == Fold(s[i])[0]
  {
    if s != "" {
      PlainFolds(s[1..]);
    }
  }

  lemma PlainKeyIsKey(s: string)
    requires IsPlainKey(s)
    ensures IsKey(s)
  {
    PlainFolds(s);
  }

  lemma UserKeysInOrder()
    ensures UserKeys(SECTIONS) == USER_KEYS
  {
    assert SECTIONS[1..][1..][1..][1..] == SECTIONS[4..];
    assert UserKeys(SECTIONS[4..]) == USER_KEYS[13..16];
    assert UserKeys(SECTIONS[3..]) == USER_KEYS[10..16];
    assert UserKeys(SECTIONS[2..]) == USER_KEYS[5..16];
    assert UserKeys(SECTIONS[1..]) == USER_KEYS[1..16];
  }

  lemma ServiceKeysArePlain()
    ensures forall i :: 0 <= i < 5 ==> IsPlainKey(USER_KEYS[i])
  {
  }

  lemma LarkKeysArePlain()
    ensures forall i :: 5 <= i < 10 ==> IsPlainKey(USER_KEYS[i])
  {
  }

  lemma ModelKeysArePlain()
    ensures forall i :: 10 <= i < 16 ==> IsPlainKey(USER_KEYS[i])
  {
  }

  lemma UserKeysArePlain()
    ensures forall i :: 0 <= i < |USER_KEYS| ==> IsPlainKey(USER_KEYS[i])
  {
    ServiceKeysArePlain();
    LarkKeysArePlain();
    ModelKeysArePlain();
  }

  lemma UserKeysAreKeys()
    ensures forall i :: 0 <= i < |USER_KEYS| ==> IsKey(USER_KEYS[i])
  {
    UserKeysArePlain();
    forall i | 0 <= i < |USER_KEYS|
      ensures IsKey(USER_KEYS[i])
    {
      PlainKeyIsKey(USER_KEYS[i]);
    }
  }

  lemma CommentLine(s: string)
    requires s != "" && s[0] == '#'
    ensures IsBlankOrComment(s)
  {
    StripStartsWith(s);
  }

  function Phrase(words: seq<string>): string {
    if words == [] then "" else words[0] + Phrase(words[1..])
  }

  lemma {:induction false} PhraseIsLine(words: seq<string>)
    requires words != [] && words[0] != "" && words[0][0] == '#'
    requires forall i :: 0 <= i < |words| ==> IsLine(words[i])
    ensures IsLine(Phrase(words)) && IsBlankOrComment(Phrase(words))
  {
    PhraseHasNoBreak(words);
    CommentLine(Phrase(words));
  }

  lemma {:induction false} PhraseHasNoBreak(words: seq<string>)
    requires forall i :: 0 <= i < |words| ==> IsLine(words[i])
    ensures IsLine(Phrase(words))
  {
    if words != [] {
      PhraseHasNoBreak(words[1..]);
    }
  }

  lemma TitleLine()
    ensures IsLine(TITLE) && IsBlankOrComment(TITLE)
  {
    PhraseIsLine(["# AI Exchange user", " configuration"]);
  }

  lemma ScopeLine()
    ensures IsLine(SCOPE) && IsBlankOrComment(SCOPE)
  {
    PhraseIsLine(["# Keep only these", " 16 integration", " and model settings."]);
  }

  lemma OriginLine()
    ensures IsLine(ORIGIN) && IsBlankOrComment(ORIGIN)
  {
    PhraseIsLine(["# Internal", " credentials and", " runtime controls", " are generated", " automatically."]);
  }

  lemma PreambleIsCommentary()
    ensures forall i :: 0 <= i < |PREAMBLE| ==> IsLine(PREAMBLE[i]) && IsBlankOrComment(PREAMBLE[i])
  {
    TitleLine();
    ScopeLine();
    OriginLine();
    BlankIsBlank();
    FourLines(TITLE, SCOPE, ORIGIN, "");
  }

  lemma FourLines(a: string, b: string, c: string, d: string)
    requires IsLine(a) && IsLine(b) && IsLine(c) && IsLine(d)
    requires IsBlankOrComment(a) && IsBlankOrComment(b) && IsBlankOrComment(c) && IsBlankOrComment(d)
    ensures forall i :: 0 <= i < |[a, b, c, d]| ==> IsLine([a, b, c, d][i]) && IsBlankOrComment([a, b, c, d][i])
  {
  }

  lemma UserKeysAreDistinct()
    ensures AreDistinct(USER_KEYS)
  {
  }

  lemma AdvancedKeysAreDistinct()
    ensures AreDistinct(KeysOf(ADVANCED_DEFAULTS))
  {
  }

  lemma AdvancedKeysAreApart()
    ensures forall i :: 0 <= i < |ADVANCED_DEFAULTS| ==> ADVANCED_DEFAULTS[i].0 !in USER_KEYS
  {
  }

  lemma FixedKeysAreApart()
    ensures forall i :: 0 <= i < |LEGACY_ROLE_FIELDS| ==> LEGACY_ROLE_FIELDS[i].0 !in USER_KEYS
    ensures TLS_FIELD !in USER_KEYS
  {
  }

  lemma SectionsAreFilled()
    ensures forall i :: 0 <= i < |SECTIONS| ==> SECTIONS[i].keys != [] && IsLine(SECTIONS[i].name)
  {
  }

  lemma SchemeIsWellFormed()
    ensures IsScheme(SCHEME)
  {
    UserKeysInOrder();
    UserKeysAreKeys();
    PreambleIsCommentary();
    UserKeysAreDistinct();
    AdvancedKeysAreDistinct();
    AdvancedKeysAreApart();
    FixedKeysAreApart();
    SectionsAreFilled();
    Assembled(SCHEME, USER_KEYS);
  }

  lemma Assembled(s: Scheme, keys: seq<string>)
    requires keys == UserKeys(s.sections) && s.sections != [] && AreDistinct(keys)
    requires forall i :: 0 <= i < |s.preamble| ==> IsLine(s.preamble[i]) && IsBlankOrComment(s.preamble[i])
    requires forall i :: 0 <= i < |s.sections| ==> s.sections[i].keys != [] && IsLine(s.sections[i].name)
    requires forall i :: 0 <= i < |keys| ==> IsKey(keys[i])
    requires AreDistinct(KeysOf(s.defaults))
    requires forall i :: 0 <= i < |s.defaults| ==> s.defaults[i].0 !in keys
    requires forall i :: 0 <= i < |s.fixed| ==> s.fixed[i].0 !in keys
    requires s.verification !in keys
    ensures IsScheme(s)
  {
  }

  /** Configuring this deployment twice is configuring it once. */
  lemma DeploymentConfiguredTwice(f: Files)
    ensures Configure(SCHEME, f).Ok? ==> Configure(SCHEME, Configure(SCHEME, f).value) == Configure(SCHEME, f)
  {
    SchemeIsWellFormed();
    if Configure(SCHEME, f).Ok? {
      ConfigureTwice(SCHEME, f);
    }
  }
}
