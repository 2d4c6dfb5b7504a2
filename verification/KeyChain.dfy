/** The versioned key chain: encryption under the newest key, decryption with any registered key and a
    fallback chain of legacy keys, over an abstract authenticated cipher. */
module KeyChain {
  import opened Wrappers
  import opened Text
  import opened Base64

  type Key = Bytes
  type Nonce = n: Bytes | |n| == NONCE_SIZE witness seq(NONCE_SIZE, _ => 0)

  const NONCE_SIZE: nat := 12
  const TAG_SIZE: nat := 16
  const LEGACY_KID: byte := 0x00
  const MAX_KID: byte := 0x7F
  const MIN_VERSIONED_BLOB_LEN: nat := 1 + NONCE_SIZE + TAG_SIZE

  /** AES-GCM as two functions: `seal` gives ciphertext and tag, `open` authenticates and decrypts. */
  datatype Aead = Aead(seal: (Key, Nonce, Bytes) -> Bytes, open: (Key, Nonce, Bytes) -> Option<Bytes>)

  /** The sealing key opens what it sealed, and a tag is 16 bytes. */
  ghost predicate Correct(a: Aead) {
    forall k: Key, n: Nonce, p: Bytes {:trigger a.seal(k, n, p)} ::
      |a.seal(k, n, p)| == |p| + TAG_SIZE && a.open(k, n, a.seal(k, n, p)) == Some(p)
  }

  /** Decrypting raw bytes: the nonce comes first. */
  function OpenBytes(a: Aead, key: Key, data: Bytes): Option<Bytes> {
    if |data| < NONCE_SIZE then None else a.open(key, data[..NONCE_SIZE], data[NONCE_SIZE..])
  }

  /** The bytes of a ciphertext without a kid. */
  function SealedBytes(a: Aead, key: Key, nonce: Nonce, plaintext: Bytes): Bytes {
    nonce + a.seal(key, nonce, plaintext)
  }

  // AESEncryptor.EncryptString and DecryptString
  function SealText(a: Aead, key: Key, nonce: Nonce, plaintext: Bytes): Bytes {
    Encode(SealedBytes(a, key, nonce, plaintext))
  }

  function OpenText(a: Aead, key: Key, ciphertext: Bytes): Option<Bytes> {
    match Decode(ciphertext)
    case None => None
    case Some(data) => OpenBytes(a, key, data)
  }

  datatype KeyEntry = KeyEntry(kid: byte, key: Key)

  datatype MultiKeyEncryptor = MultiKeyEncryptor(latest: KeyEntry, byKid: map<byte, Key>, legacyKeys: seq<Key>)
  {
    ghost predicate Valid() {
      && latest.kid in byKid && byKid[latest.kid] == latest.key
      && forall kid :: kid in byKid ==> LEGACY_KID < kid <= MAX_KID
    }

    function CurrentKid(): byte { latest.kid }
  }

  function EncryptString(a: Aead, m: MultiKeyEncryptor, nonce: Nonce, plaintext: Bytes): Option<Bytes> {
    match Decode(SealText(a, m.latest.key, nonce, plaintext))
    case None => None
    case Some(raw) => Some(Encode([m.latest.kid] + raw))
  }

  datatype Opened = Opened(plaintext: Bytes, kid: byte)

  /** Whether the kid byte of a blob names a registered key and the blob is long enough to carry one. */
  predicate Versioned(m: MultiKeyEncryptor, data: Bytes) {
    MIN_VERSIONED_BLOB_LEN <= |data| && data[0] in m.byKid
  }

  function FirstOpened(a: Aead, keys: seq<Key>, ciphertext: Bytes): Option<Bytes> {
    if keys == [] then None
    else
      var found := OpenText(a, keys[0], ciphertext);
      if found.Some? then found else FirstOpened(a, keys[1..], ciphertext)
  }

  /** DecryptStringWithKid; None is an error. */
  function DecryptWithKid(a: Aead, m: MultiKeyEncryptor, ciphertext: Bytes): Option<Opened> {
    match Decode(ciphertext)
    case None => None
    case Some(data) =>
      var versioned := if Versioned(m, data) then OpenText(a, m.byKid[data[0]], Encode(data[1..])) else None;
      if versioned.Some? then Some(Opened(versioned.value, data[0]))
      else
        match FirstOpened(a, m.legacyKeys, ciphertext)
        case None => None
        case Some(plaintext) => Some(Opened(plaintext, LEGACY_KID))
  }

  /** The decryption as the source runs it, with its first-match loop over the legacy keys. */
  method DecryptStringWithKid(a: Aead, m: MultiKeyEncryptor, ciphertext: Bytes) returns (r: Option<Opened>)
    ensures r == DecryptWithKid(a, m, ciphertext)
  {
    var decoded := Decode(ciphertext);
    if decoded.None? {
      return None;
    }
    var data := decoded.value;
    if MIN_VERSIONED_BLOB_LEN <= |data| {
      var kid := data[0];
      if kid in m.byKid {
        var found := OpenText(a, m.byKid[kid], Encode(data[1..]));
        if found.Some? {
          return Some(Opened(found.value, kid));
        }
      }
    }
    for k := 0 to |m.legacyKeys|
      invariant FirstOpened(a, m.legacyKeys, ciphertext) == FirstOpened(a, m.legacyKeys[k..], ciphertext)
    {
      var found := OpenText(a, m.legacyKeys[k], ciphertext);
      if found.Some? {
        return Some(Opened(found.value, LEGACY_KID));
      }
    }
    r := None;
  }

  // ---------- construction ----------

  datatype Error =
    | NoEncryptionKeys
    | ReservedKid(kid: byte)
    | DuplicateKid(kid: byte)
    | BadKey(index: nat)
    | BadLegacyKey

  predicate InRange(kid: byte) { LEGACY_KID < kid <= MAX_KID }

  /** The kids of a list of entries are in range and distinct. */
  ghost predicate Registrable(entries: seq<KeyEntry>) {
    && (forall i :: 0 <= i < |entries| ==> 0x01 <= entries[i].kid <= 0x7F)
    && (forall i, j :: 0 <= i < j < |entries| ==> entries[i].kid != entries[j].kid)
  }

  /** Registering entries in order into an empty table; the first that is reserved or already there ends it. */
  function Register(entries: seq<KeyEntry>): Result<map<byte, Key>, Error> {
    if entries == [] then Ok(map[])
    else
      var last := entries[|entries| - 1];
      match Register(entries[..|entries| - 1])
      case Err(e) => Err(e)
      case Ok(byKid) =>
        if !InRange(last.kid) then Err(ReservedKid(last.kid))
        else if last.kid in byKid then Err(DuplicateKid(last.kid))
        else Ok(byKid[last.kid := last.key])
  }

  method NewMultiKeyEncryptor(entries: seq<KeyEntry>, legacyKeys: seq<Key>)
    returns (r: Result<MultiKeyEncryptor, Error>)
    ensures r == if entries == [] then Err(NoEncryptionKeys)
                 else match Register(entries)
                   case Err(e) => Err(e)
                   case Ok(byKid) => Ok(MultiKeyEncryptor(entries[|entries| - 1], byKid, legacyKeys))
  {
    if |entries| == 0 {
      return Err(NoEncryptionKeys);
    }
    var byKid: map<byte, Key> := map[];
    for i := 0 to |entries|
      invariant Register(entries[..i]) == Ok(byKid)
    {
      var kid := entries[i].kid;
      assert entries[..i + 1][..i] == entries[..i];
      if kid == LEGACY_KID || kid > MAX_KID {
        RejectionStays(entries, i + 1);
        return Err(ReservedKid(kid));
      }
      if kid in byKid {
        RejectionStays(entries, i + 1);
        return Err(DuplicateKid(kid));
      }
      byKid := byKid[kid := entries[i].key];
    }
    assert entries[..|entries|] == entries;
    r := Ok(MultiKeyEncryptor(entries[|entries| - 1], byKid, legacyKeys));
  }

  lemma {:induction false} RejectionStays(entries: seq<KeyEntry>, n: nat)
    requires n <= |entries| && Register(entries[..n]).Err?
    ensures Register(entries) == Register(entries[..n])
  {
    if n == |entries| {
      assert entries[..n] == entries;
    } else {
      var shorter := entries[..|entries| - 1];
      assert shorter[..n] == entries[..n];
      RejectionStays(shorter, n);
    }
  }

  /** The table of a list that registers holds exactly its entries. */
  lemma {:induction false} RegisteredEntries(entries: seq<KeyEntry>)
    requires Register(entries).Ok?
    ensures var byKid := Register(entries).value;
            && (forall i :: 0 <= i < |entries| ==>
                  entries[i].kid in byKid && byKid[entries[i].kid] == entries[i].key)
            && (forall kid :: kid in byKid ==> exists i :: 0 <= i < |entries| && entries[i].kid == kid)
  {
    if entries != [] {
      var n := |entries| - 1;
      var shorter := entries[..n];
      RegisteredEntries(shorter);
      forall kid | kid in Register(entries).value ensures exists i :: 0 <= i < |entries| && entries[i].kid == kid {
        if kid == entries[n].kid {
        } else {
          var i :| 0 <= i < n && shorter[i].kid == kid;
          assert entries[i].kid == kid;
        }
      }
    }
  }

  /** A list registers exactly if its kids are in range and distinct. */
  lemma {:induction false} RegistersIffRegistrable(entries: seq<KeyEntry>)
    ensures Register(entries).Ok? <==> Registrable(entries)
  {
    if entries != [] {
      var n := |entries| - 1;
      var shorter := entries[..n];
      RegistersIffRegistrable(shorter);
      assert Registrable(entries) <==>
        Registrable(shorter) && 0x01 <= entries[n].kid <= 0x7F
        && forall i :: 0 <= i < n ==> shorter[i].kid != entries[n].kid;
      if Register(shorter).Ok? {
        RegisteredEntries(shorter);
      }
    }
  }

  /** The first entry that is out of range, or repeats an earlier kid, decides the error. */
  lemma FirstBadKidIsTheError(entries: seq<KeyEntry>, i: nat)
    requires i < |entries| && Registrable(entries[..i]) && !Registrable(entries[..i + 1])
    ensures var kid := entries[i].kid;
            Register(entries) == Err(if 0x01 <= kid <= 0x7F then DuplicateKid(kid) else ReservedKid(kid))
  {
    var upTo := entries[..i + 1];
    assert upTo[..i] == entries[..i];
    RegistersIffRegistrable(entries[..i]);
    RegistersIffRegistrable(upTo);
    RejectionStays(entries, i + 1);
  }

  predicate KeySize(n: nat) { n in {16, 24, 32} }

  /** ParseKey: base64 if that yields a key size, else the raw bytes if they are one. */
  function ParseKey(text: Bytes): (key: Option<Key>)
    ensures key.Some? ==> KeySize(|key.value|)
  {
    if text == [] then None
    else
      var decoded := Decode(text);
      if decoded.Some? && KeySize(|decoded.value|) then decoded
      else if KeySize(|text|) then Some(text)
      else None
  }

  /** A text is a key exactly if it is 16, 24 or 32 bytes long or decodes to as many. */
  lemma ParsesIffKeySized(text: Bytes)
    ensures ParseKey(text).Some?
       <==> |text| in {16, 24, 32} || (Decode(text).Some? && |Decode(text).value| in {16, 24, 32})
  {
    assert Decode([]) == Some([]);
  }

  /** A key configured in base64 is read back, whatever its bytes. */
  lemma EncodedKeysParse(key: Key)
    requires KeySize(|key|)
    ensures ParseKey(Encode(key)) == Some(key)
  {
    RoundTrip(key);
    assert Decode([]) == Some([]);
  }

  /** A raw text of a key size is taken as it is exactly if it does not decode to a key. */
  lemma RawKeysParseIffNotBase64(text: Bytes)
    requires KeySize(|text|)
    ensures ParseKey(text) == Some(text) <==> !(Decode(text).Some? && KeySize(|Decode(text).value|))
  {
    if Decode(text).Some? {
      DecodingShrinks(text);
    }
  }

  /** A raw text of 16 bytes always is: what it decodes to, if anything, is too short. */
  lemma SixteenBytesAreRaw(text: Bytes)
    requires |text| == 16
    ensures ParseKey(text) == Some(text)
  {
    if Decode(text).Some? {
      DecodingShrinks(text);
    }
  }

  /** But every encoding of a 16- or 24-byte key is itself of a key size, and is read as that shorter key. */
  lemma EncodedKeysLookRaw(key: Key)
    requires |key| == 16 || |key| == 24
    ensures |Encode(key)| == |key| + 8 && KeySize(|key| + 8)
  {
    EncodedLength(key);
  }

  /** The variables TOKEN_ENCRYPTION_KEY_V<n>, TOKEN_ENCRYPTION_KEY and YOUTUBE_TOKEN_ENCRYPTION_KEY;
      an empty value is an unset variable. */
  datatype Env = Env(versioned: nat -> Bytes, token: Bytes, youtube: Bytes)

  /** V1 to Vcount are set and Vcount+1 is not, or is beyond the last allowed kid. */
  predicate Discovered(env: Env, count: nat) {
    && count <= MAX_KID
    && (forall n: nat :: 1 <= n <= count ==> env.versioned(n) != [])
    && (count < MAX_KID as nat ==> env.versioned(count + 1) == [])
  }

  /** The keys of the set legacy variables, the older variable first. */
  function LegacyKeys(env: Env): seq<Key>
    requires LegacyParses(env)
  {
    (if env.token == [] then [] else [ParseKey(env.token).value])
    + (if env.youtube == [] then [] else [ParseKey(env.youtube).value])
  }

  /** Variables 1 to count all parse. */
  ghost predicate AllParse(env: Env, count: nat) {
    forall n: nat {:trigger env.versioned(n)} :: 1 <= n <= count ==> ParseKey(env.versioned(n)).Some?
  }

  ghost predicate FirstUnparsed(env: Env, n: nat) { 1 <= n && AllParse(env, n - 1) && ParseKey(env.versioned(n)).None? }

  /** The legacy variables are unset or parse. */
  predicate LegacyParses(env: Env) {
    && (env.token != [] ==> ParseKey(env.token).Some?)
    && (env.youtube != [] ==> ParseKey(env.youtube).Some?)
  }

  /** The entries hold the keys of variables 1, 2, and so on. */
  ghost predicate FromEnv(env: Env, entries: seq<KeyEntry>) {
    forall i :: 0 <= i < |entries| ==>
      entries[i].kid == i + 1 && ParseKey(env.versioned(i + 1)) == Some(entries[i].key)
  }

  /** The first loop of the discovery: the variables before the first gap, if they parse. */
  method VersionedKeys(env: Env, ghost count: nat) returns (r: Result<seq<KeyEntry>, Error>)
    requires Discovered(env, count)
    ensures r.Ok? <==> AllParse(env, count)
    ensures r.Ok? ==> |r.value| == count && FromEnv(env, r.value)
    ensures r.Err? ==> r.error.BadKey? && FirstUnparsed(env, r.error.index)
  {
    var entries: seq<KeyEntry> := [];
    var n: nat := 1;
    while n <= MAX_KID as nat && env.versioned(n) != []
      invariant 1 <= n <= MAX_KID as nat + 1 && |entries| == n - 1 <= count
      invariant FromEnv(env, entries)
    {
      var parsed := ParseKey(env.versioned(n));
      assert AllParse(env, n - 1) by {
        forall k: nat | 1 <= k <= n - 1 ensures ParseKey(env.versioned(k)).Some? {
          assert entries[k - 1].kid == k;
        }
      }
      if parsed.None? {
        return Err(BadKey(n));
      }
      entries := entries + [KeyEntry(n, parsed.value)];
      n := n + 1;
    }
    assert |entries| == count;
    forall k: nat | 1 <= k <= count ensures ParseKey(env.versioned(k)).Some? {
      assert entries[k - 1].kid == k;
    }
    r := Ok(entries);
  }

  /** The legacy chain: the older variable first. */
  method LegacyChain(env: Env) returns (r: Result<seq<Key>, Error>)
    ensures r == if LegacyParses(env) then Ok(LegacyKeys(env)) else Err(BadLegacyKey)
    ensures r.Ok? <==> && (env.token == [] || ParseKey(env.token).Some?)
                       && (env.youtube == [] || ParseKey(env.youtube).Some?)
    ensures r.Ok? ==>
              && |r.value| == (if env.token == [] then 0 else 1) + (if env.youtube == [] then 0 else 1)
              && (env.token != [] ==> Some(r.value[0]) == ParseKey(env.token))
              && (env.youtube != [] ==> Some(r.value[|r.value| - 1]) == ParseKey(env.youtube))
  {
    var legacyKeys: seq<Key> := [];
    if env.token != [] {
      var parsed := ParseKey(env.token);
      if parsed.None? {
        return Err(BadLegacyKey);
      }
      legacyKeys := legacyKeys + [parsed.value];
    }
    if env.youtube != [] {
      var parsed := ParseKey(env.youtube);
      if parsed.None? {
        return Err(BadLegacyKey);
      }
      legacyKeys := legacyKeys + [parsed.value];
    }
    assert legacyKeys == LegacyKeys(env);
    r := Ok(legacyKeys);
  }

  /** Entry i has kid i + 1. */
  ghost predicate Numbered(entries: seq<KeyEntry>) {
    forall i :: 0 <= i < |entries| ==> entries[i].kid == i + 1
  }

  lemma {:induction false} NumberedRegister(entries: seq<KeyEntry>)
    requires Numbered(entries) && |entries| <= MAX_KID
    ensures Register(entries).Ok?
    ensures var byKid := Register(entries).value;
            && (forall kid :: kid in byKid <==> 1 <= kid <= |entries|)
            && (forall kid :: kid in byKid ==> byKid[kid] == entries[kid - 1].key)
  {
    if entries != [] {
      NumberedRegister(entries[..|entries| - 1]);
    }
  }

  lemma EnvEntriesRegister(env: Env, entries: seq<KeyEntry>)
    requires FromEnv(env, entries) && |entries| <= MAX_KID
    ensures Register(entries).Ok?
    ensures var byKid := Register(entries).value;
            && (forall kid :: kid in byKid <==> 1 <= kid <= |entries|)
            && (forall kid :: kid in byKid ==> ParseKey(env.versioned(kid)) == Some(byKid[kid]))
  {
    NumberedRegister(entries);
    var byKid := Register(entries).value;
    forall kid | kid in byKid ensures ParseKey(env.versioned(kid)) == Some(byKid[kid]) {
      assert entries[kid - 1].kid == kid;
    }
  }

  /** Key discovery: kids 1 to count are registered, where variable count is the last before the first gap and
      becomes the write key, and the legacy keys keep their order; it succeeds exactly if there is a first
      variable and every variable it looks at parses. */
  method NewMultiKeyEncryptorFromEnv(env: Env, ghost count: nat) returns (r: Result<MultiKeyEncryptor, Error>)
    requires Discovered(env, count)
    ensures r == Err(NoEncryptionKeys) <==> count == 0
    ensures r.Err? ==> match r.error
                       case BadKey(n) => FirstUnparsed(env, n)
                       case BadLegacyKey => AllParse(env, count) && !LegacyParses(env)
                       case other => other == NoEncryptionKeys
    ensures r.Ok? <==> 0 < count && LegacyParses(env) && AllParse(env, count)
    ensures r.Ok? ==>
              && r.value.Valid() && r.value.CurrentKid() == count && r.value.legacyKeys == LegacyKeys(env)
              && (forall kid :: kid in r.value.byKid <==> 1 <= kid <= count)
              && (forall kid :: kid in r.value.byKid ==> ParseKey(env.versioned(kid)) == Some(r.value.byKid[kid]))
  {
    var entries := VersionedKeys(env, count);
    if entries.Err? {
      return Err(entries.error);
    }
    if |entries.value| == 0 {
      return Err(NoEncryptionKeys);
    }
    var legacyKeys := LegacyChain(env);
    if legacyKeys.Err? {
      return Err(legacyKeys.error);
    }
    EnvEntriesRegister(env, entries.value);
    r := NewMultiKeyEncryptor(entries.value, legacyKeys.value);
    assert FromEnv(env, entries.value) && entries.value[count - 1].kid == count;
  }

  // ---------- round trips ----------

  lemma ResealedOpens(a: Aead, key: Key, data: Bytes)
    ensures OpenText(a, key, Encode(data)) == OpenBytes(a, key, data)
  {
    RoundTrip(data);
  }

  lemma SealedOpens(a: Aead, key: Key, nonce: Nonce, plaintext: Bytes)
    requires Correct(a)
    ensures OpenBytes(a, key, SealedBytes(a, key, nonce, plaintext)) == Some(plaintext)
    ensures |SealedBytes(a, key, nonce, plaintext)| == NONCE_SIZE + |plaintext| + TAG_SIZE
  {
  }

  /** A ciphertext is the base64 text of the kid, the nonce and what the cipher makes of the plaintext. */
  lemma EncryptedBlob(a: Aead, m: MultiKeyEncryptor, nonce: Nonce, plaintext: Bytes)
    ensures EncryptString(a, m, nonce, plaintext)
         == Some(Encode([m.latest.kid] + SealedBytes(a, m.latest.key, nonce, plaintext)))
         == Some(Encode([m.latest.kid] + (nonce + a.seal(m.latest.key, nonce, plaintext))))
    ensures Correct(a) ==> |SealedBytes(a, m.latest.key, nonce, plaintext)| == 12 + |plaintext| + 16 && |nonce| == 12
  {
    RoundTrip(SealedBytes(a, m.latest.key, nonce, plaintext));
  }

  /** Decrypting anything EncryptString wrote gives its plaintext and the current kid. */
  lemma EncryptThenDecrypt(a: Aead, m: MultiKeyEncryptor, nonce: Nonce, plaintext: Bytes)
    requires Correct(a) && m.Valid()
    ensures var c := EncryptString(a, m, nonce, plaintext);
            c.Some? && c.value != [] && DecryptWithKid(a, m, c.value) == Some(Opened(plaintext, m.CurrentKid()))
  {
    EncryptedBlob(a, m, nonce, plaintext);
    var sealed := SealedBytes(a, m.latest.key, nonce, plaintext);
    var blob := [m.latest.kid] + sealed;
    SealedOpens(a, m.latest.key, nonce, plaintext);
    RoundTrip(blob);
    assert blob[1..] == sealed;
    ResealedOpens(a, m.latest.key, sealed);
    assert Decode([]) == Some([]);
  }

  /** The first match of a chain is that of its first keys, or of the key after them. */
  lemma {:induction false} FirstOpenedSplits(a: Aead, keys: seq<Key>, j: nat, ciphertext: Bytes)
    requires j < |keys| && OpenText(a, keys[j], ciphertext).Some?
    ensures var earlier := FirstOpened(a, keys[..j], ciphertext);
            FirstOpened(a, keys, ciphertext) == if earlier.Some? then earlier else OpenText(a, keys[j], ciphertext)
  {
    if j != 0 {
      assert keys[..j][1..] == keys[1..][..j - 1];
      FirstOpenedSplits(a, keys[1..], j - 1, ciphertext);
    }
  }

  /** The kid byte of a blob names a registered key that authenticates the rest of the blob. */
  predicate Mistaken(a: Aead, m: MultiKeyEncryptor, data: Bytes) {
    Versioned(m, data) && OpenBytes(a, m.byKid[data[0]], data[1..]).Some?
  }

  /** A kid-less blob sealed by a legacy key, whatever its first byte and however short, decrypts to its
      plaintext under the legacy kid, exactly when the key its first byte names, if any, does not open the
      rest of it and no earlier legacy key opens it to something else. */
  lemma LegacyDecrypts(a: Aead, m: MultiKeyEncryptor, j: nat, nonce: Nonce, plaintext: Bytes)
    requires Correct(a) && m.Valid() && j < |m.legacyKeys|
    ensures var data := SealedBytes(a, m.legacyKeys[j], nonce, plaintext);
            DecryptWithKid(a, m, Encode(data)) == Some(Opened(plaintext, LEGACY_KID))
            <==> !Mistaken(a, m, data) && FirstOpened(a, m.legacyKeys[..j], Encode(data)) in {None, Some(plaintext)}
  {
    var data := SealedBytes(a, m.legacyKeys[j], nonce, plaintext);
    RoundTrip(data);
    SealedOpens(a, m.legacyKeys[j], nonce, plaintext);
    FirstOpenedSplits(a, m.legacyKeys, j, Encode(data));
    if data[0] in m.byKid {
      ResealedOpens(a, m.byKid[data[0]], data[1..]);
    }
  }

  /** An empty plaintext sealed by the first legacy key always decrypts: its 28 bytes are too few to be taken
      for a versioned blob. */
  lemma EmptyLegacyDecrypts(a: Aead, m: MultiKeyEncryptor, nonce: Nonce)
    requires Correct(a) && m.Valid() && m.legacyKeys != []
    ensures DecryptWithKid(a, m, SealText(a, m.legacyKeys[0], nonce, [])) == Some(Opened([], 0x00))
  {
    LegacyDecrypts(a, m, 0, nonce, []);
    SealedOpens(a, m.legacyKeys[0], nonce, []);
  }

  // ---------- a newer key ----------

  function WithNewer(m: MultiKeyEncryptor, e: KeyEntry): MultiKeyEncryptor {
    m.(latest := e, byKid := m.byKid[e.kid := e.key])
  }

  /** A newer key leaves what a ciphertext decrypts to, and its reported kid, exactly as they were unless
      the ciphertext carries the new kid byte and the new key authenticates it. */
  lemma NewerKeyChangesNothing(a: Aead, m: MultiKeyEncryptor, e: KeyEntry, ciphertext: Bytes)
    requires m.Valid() && InRange(e.kid) && e.kid !in m.byKid
    ensures WithNewer(m, e).Valid() && WithNewer(m, e).CurrentKid() == e.kid
    ensures DecryptWithKid(a, WithNewer(m, e), ciphertext) == DecryptWithKid(a, m, ciphertext)
        <==> !(Decode(ciphertext).Some?
               && var data := Decode(ciphertext).value;
                  MIN_VERSIONED_BLOB_LEN <= |data| && data[0] == e.kid && OpenBytes(a, e.key, data[1..]).Some?)
  {
    var d := Decode(ciphertext);
    if d.Some? && d.value != [] {
      ResealedOpens(a, e.key, d.value[1..]);
    }
  }

  // ---------- both exceptions occur ----------

  const ZERO_TAG: Bytes := seq(TAG_SIZE, _ => 0)

  /** A cipher that opens what it sealed, and everything else too. */
  function Forgiving(): Aead {
    Aead((k, n, p) => p + ZERO_TAG, (k, n, c) => if |c| < TAG_SIZE then None else Some(c[..|c| - TAG_SIZE]))
  }

  lemma ForgivingIsCorrect()
    ensures Correct(Forgiving())
  {
    var a := Forgiving();
    forall k: Key, n: Nonce, p: Bytes
      ensures |a.seal(k, n, p)| == |p| + TAG_SIZE && a.open(k, n, a.seal(k, n, p)) == Some(p)
    {
      assert (p + ZERO_TAG)[..|p|] == p;
    }
  }

  /** Under it a legacy blob of one or more bytes whose nonce starts with a registered kid is mistaken. */
  lemma LegacyBlobIsMistaken(m: MultiKeyEncryptor, key: Key, nonce: Nonce, plaintext: Bytes)
    requires m.Valid() && nonce[0] in m.byKid && plaintext != []
    ensures Correct(Forgiving()) && Mistaken(Forgiving(), m, SealedBytes(Forgiving(), key, nonce, plaintext))
  {
    ForgivingIsCorrect();
  }

  /** And a newer key whose kid the nonce starts with changes what the blob decrypts to. */
  lemma NewerKeyMayChange(m: MultiKeyEncryptor, e: KeyEntry, key: Key, nonce: Nonce, plaintext: Bytes)
    requires m.Valid() && InRange(e.kid) && e.kid !in m.byKid && nonce[0] == e.kid && plaintext != []
    ensures var c := SealText(Forgiving(), key, nonce, plaintext);
            DecryptWithKid(Forgiving(), WithNewer(m, e), c) != DecryptWithKid(Forgiving(), m, c)
  {
    RoundTrip(SealedBytes(Forgiving(), key, nonce, plaintext));
    NewerKeyChangesNothing(Forgiving(), m, e, SealText(Forgiving(), key, nonce, plaintext));
  }

  // ---------- rotation ----------

  /** The ciphertext columns of a row; an empty column holds nothing. */
  type Row = seq<Bytes>

  predicate Readable(a: Aead, m: MultiKeyEncryptor, column: Bytes) {
    column == [] || DecryptWithKid(a, m, column).Some?
  }

  // encryptIfNotCurrentKid
  function RotateColumn(a: Aead, m: MultiKeyEncryptor, nonce: Nonce, column: Bytes): Bytes {
    if column == [] then column
    else match DecryptWithKid(a, m, column)
      case None => column
      case Some(found) =>
        if found.kid == m.CurrentKid() then column
        else match EncryptString(a, m, nonce, found.plaintext)
          case None => column
          case Some(resealed) => resealed
  }

  /** A row with a column that does not decrypt is counted as an error and left alone. */
  function RotateRow(a: Aead, m: MultiKeyEncryptor, nonces: nat -> Nonce, row: Row): (r: Row)
    ensures |r| == |row|
  {
    if forall i :: 0 <= i < |row| ==> Readable(a, m, row[i]) then
      seq(|row|, i requires 0 <= i < |row| => RotateColumn(a, m, nonces(i), row[i]))
    else row
  }

  datatype Visit = Visit(row: nat, nonces: nat -> Nonce)

  /** Any order of visits to the rows of a table, with repeats. */
  function Sweep(a: Aead, m: MultiKeyEncryptor, table: seq<Row>, visits: seq<Visit>): (r: seq<Row>)
    ensures |r| == |table|
    decreases |visits|
  {
    if visits == [] then table
    else
      var v := visits[0];
      var next := if v.row < |table| then table[v.row := RotateRow(a, m, v.nonces, table[v.row])] else table;
      Sweep(a, m, next, visits[1..])
  }

  ghost predicate ReadableRow(a: Aead, m: MultiKeyEncryptor, row: Row) {
    forall i :: 0 <= i < |row| ==> row[i] == [] || DecryptWithKid(a, m, row[i]).Some?
  }

  /** Every column is empty or decrypts under the current kid. */
  ghost predicate CurrentRow(a: Aead, m: MultiKeyEncryptor, row: Row) {
    forall i :: 0 <= i < |row| ==>
      row[i] == [] || (DecryptWithKid(a, m, row[i]).Some? && DecryptWithKid(a, m, row[i]).value.kid == m.CurrentKid())
  }

  /** Two rows hold the same plaintexts. */
  ghost predicate SamePlaintexts(a: Aead, m: MultiKeyEncryptor, x: Row, y: Row) {
    && |x| == |y|
    && forall i :: 0 <= i < |x| ==>
         && (x[i] == [] <==> y[i] == [])
         && (x[i] != [] && DecryptWithKid(a, m, x[i]).Some? ==>
               DecryptWithKid(a, m, y[i]).Some?
               && DecryptWithKid(a, m, y[i]).value.plaintext == DecryptWithKid(a, m, x[i]).value.plaintext)
  }

  lemma ColumnRotates(a: Aead, m: MultiKeyEncryptor, nonce: Nonce, column: Bytes)
    requires Correct(a) && m.Valid() && (column == [] || DecryptWithKid(a, m, column).Some?)
    ensures var c := RotateColumn(a, m, nonce, column);
            if column == [] then c == []
            else
              var before := DecryptWithKid(a, m, column).value;
              && c != [] && DecryptWithKid(a, m, c) == Some(Opened(before.plaintext, m.CurrentKid()))
              && (before.kid == m.CurrentKid() ==> c == column)
  {
    if column != [] {
      EncryptThenDecrypt(a, m, nonce, DecryptWithKid(a, m, column).value.plaintext);
    }
  }

  ghost predicate ColumnOk(a: Aead, m: MultiKeyEncryptor, before: Bytes, after: Bytes) {
    if before == [] then after == []
    else
      && after != [] && DecryptWithKid(a, m, before).Some? && DecryptWithKid(a, m, after).Some?
      && DecryptWithKid(a, m, after).value == Opened(DecryptWithKid(a, m, before).value.plaintext, m.CurrentKid())
      && (DecryptWithKid(a, m, before).value.kid == m.CurrentKid() ==> after == before)
  }

  lemma RowRotates(a: Aead, m: MultiKeyEncryptor, nonces: nat -> Nonce, row: Row)
    requires Correct(a) && m.Valid()
    ensures var r := RotateRow(a, m, nonces, row);
            && (ReadableRow(a, m, row) ==> CurrentRow(a, m, r) && SamePlaintexts(a, m, row, r))
            && (!ReadableRow(a, m, row) || CurrentRow(a, m, row) ==> r == row)
  {
    if ReadableRow(a, m, row) {
      forall i | 0 <= i < |row| ensures ColumnOk(a, m, row[i], RotateColumn(a, m, nonces(i), row[i])) {
        ColumnRotates(a, m, nonces(i), row[i]);
      }
    }
  }

  /** However the rows are visited, a visited readable row ends up under the current key throughout, every
      row keeps its plaintexts, and unreadable rows stay as they were. */
  lemma {:induction false} SweepConverges(a: Aead, m: MultiKeyEncryptor, table: seq<Row>, visits: seq<Visit>, i: nat)
    requires Correct(a) && m.Valid() && i < |table|
    ensures var row := Sweep(a, m, table, visits)[i];
            && (ReadableRow(a, m, table[i]) ==> SamePlaintexts(a, m, table[i], row) && ReadableRow(a, m, row))
            && (!ReadableRow(a, m, table[i]) ==> row == table[i])
            && (CurrentRow(a, m, table[i]) ==> row == table[i])
            && (ReadableRow(a, m, table[i]) && (exists v :: v in visits && v.row == i) ==> CurrentRow(a, m, row))
    decreases |visits|
  {
    if visits != [] {
      var v := visits[0];
      if v.row < |table| {
        RowRotates(a, m, v.nonces, table[v.row]);
        var next := table[v.row := RotateRow(a, m, v.nonces, table[v.row])];
        SweepConverges(a, m, next, visits[1..], i);
      } else {
        SweepConverges(a, m, table, visits[1..], i);
      }
    }
  }

  /** The chain after every key but the current one is retired. */
  function Retired(m: MultiKeyEncryptor): MultiKeyEncryptor {
    MultiKeyEncryptor(m.latest, map[m.latest.kid := m.latest.key], [])
  }

  /** Once a readable row has been visited, its columns decrypt to the plaintexts they had before the sweep
      with the current key alone: every older key can be retired. */
  lemma SweptRowsOutliveOldKeys(a: Aead, m: MultiKeyEncryptor, table: seq<Row>, visits: seq<Visit>, i: nat, k: nat)
    requires Correct(a) && m.Valid() && i < |table| && ReadableRow(a, m, table[i]) && k < |table[i]|
    requires exists v :: v in visits && v.row == i
    ensures var row := Sweep(a, m, table, visits)[i];
            && |row| == |table[i]|
            && (table[i][k] == [] <==> row[k] == [])
            && (row[k] != [] ==>
                  DecryptWithKid(a, Retired(m), row[k])
                  == Some(Opened(DecryptWithKid(a, m, table[i][k]).value.plaintext, m.CurrentKid())))
  {
    SweepConverges(a, m, table, visits, i);
    var row := Sweep(a, m, table, visits)[i];
    assert CurrentRow(a, m, row);
  }

  /** After a sweep that visited every readable row, a further sweep changes nothing. */
  lemma {:induction false} FurtherSweepIsNoOp(
    a: Aead, m: MultiKeyEncryptor, table: seq<Row>, visits: seq<Visit>, more: seq<Visit>)
    requires Correct(a) && m.Valid()
    requires forall i :: 0 <= i < |table| && ReadableRow(a, m, table[i]) ==> exists v :: v in visits && v.row == i
    ensures var swept := Sweep(a, m, table, visits); Sweep(a, m, swept, more) == swept
  {
    var swept := Sweep(a, m, table, visits);
    forall i | 0 <= i < |table| ensures Sweep(a, m, swept, more)[i] == swept[i] {
      SweepConverges(a, m, table, visits, i);
      SweepConverges(a, m, swept, more, i);
    }
  }
}
