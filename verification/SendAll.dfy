/** The keys of the send-to-all feature: text normalization over ASCII and the key derivation, over an
    abstract digest. */
module SendAll {
  import opened Text

  // ---------- normalization ----------

  predicate IsSpace(c: char) { c == ' ' || '\t' <= c <= '\r' }

  function Lower(c: char): char { if 'A' <= c <= 'Z' then (c as int - 'A' as int + 'a' as int) as char else c }

  function LowerAll(s: string): (t: string)
    ensures |t| == |s|
  {
    if s == "" then "" else [Lower(s[0])] + LowerAll(s[1..])
  }

  predicate SpaceFree(s: string) { forall c :: c in s ==> !IsSpace(c) }

  /** The length of the run of non-space characters at the start. */
  function WordLength(s: string): (n: nat)
    ensures n <= |s| && SpaceFree(s[..n]) && (n < |s| ==> IsSpace(s[n]))
  {
    if s == "" || IsSpace(s[0]) then 0 else 1 + WordLength(s[1..])
  }

  /** The maximal runs of non-space characters, in order. */
  function Fields(s: string): seq<string>
    decreases |s|
  {
    if s == "" then []
    else if IsSpace(s[0]) then Fields(s[1..])
    else [s[..WordLength(s)]] + Fields(s[WordLength(s)..])
  }

  function Join(fields: seq<string>): string {
    if fields == [] then ""
    else if |fields| == 1 then fields[0]
    else fields[0] + " " + Join(fields[1..])
  }

  function NormalizeText(s: string): string { LowerAll(Join(Fields(s))) }

  ghost predicate Word(w: string) { w != "" && SpaceFree(w) }

  ghost predicate Words(fields: seq<string>) { forall i :: 0 <= i < |fields| ==> Word(fields[i]) }

  lemma {:induction false} FieldsAreWords(s: string)
    ensures Words(Fields(s))
    decreases |s|
  {
    if s == "" {
    } else if IsSpace(s[0]) {
      FieldsAreWords(s[1..]);
    } else {
      FieldsAreWords(s[WordLength(s)..]);
    }
  }

  lemma {:induction false} WordLengthIs(w: string, rest: string)
    requires SpaceFree(w) && (rest == "" || IsSpace(rest[0]))
    ensures WordLength(w + rest) == |w|
  {
    if w == "" {
      assert w + rest == rest;
    } else {
      assert (w + rest)[0] in w && (w + rest)[1..] == w[1..] + rest;
      WordLengthIs(w[1..], rest);
    }
  }

  /** Splitting undoes joining. */
  lemma {:induction false} FieldsOfJoin(fields: seq<string>)
    requires Words(fields)
    ensures Fields(Join(fields)) == fields
  {
    if fields != [] {
      var w := fields[0];
      var rest := if |fields| == 1 then "" else " " + Join(fields[1..]);
      var s := Join(fields);
      assert s == w + rest;
      assert s[0] == w[0] && w[0] in w;
      WordLengthIs(w, rest);
      assert s[..|w|] == w && s[|w|..] == rest;
      if |fields| > 1 {
        FieldsOfJoin(fields[1..]);
        assert rest[1..] == Join(fields[1..]);
      }
    }
  }

  // ---------- what fields and lower case are ----------

  predicate IsBlank(c: char) { c in {' ', '\t', '\n', '\r', '\U{000B}', '\U{000C}'} }

  predicate Blank(s: string) { forall i :: 0 <= i < |s| ==> IsBlank(s[i]) }

  predicate Unbroken(w: string) { w != "" && forall i :: 0 <= i < |w| ==> !IsBlank(w[i]) }

  /** A text as gaps and fields in turn, with a last gap. */
  datatype Spacing = End(gap: string) | Field(gap: string, field: string, rest: Spacing)

  function Spelled(t: Spacing): string {
    match t
    case End(gap) => gap
    case Field(gap, field, rest) => gap + (field + Spelled(rest))
  }

  function FieldsIn(t: Spacing): seq<string> {
    match t
    case End(_) => []
    case Field(_, field, rest) => [field] + FieldsIn(rest)
  }

  /** Blank gaps, of which all inner ones are there, and unbroken fields. */
  predicate Alternating(t: Spacing) {
    && Blank(t.gap)
    && (t.Field? ==> Unbroken(t.field) && Alternating(t.rest) && (t.rest.Field? ==> t.rest.gap != ""))
  }

  lemma BlankIsSpace(c: char)
    ensures IsBlank(c) <==> IsSpace(c)
  {
  }

  lemma {:induction false} GapsAreSkipped(gap: string, rest: string)
    requires Blank(gap)
    ensures Fields(gap + rest) == Fields(rest)
  {
    if gap == "" {
      assert gap + rest == rest;
    } else {
      BlankIsSpace(gap[0]);
      assert (gap + rest)[1..] == gap[1..] + rest;
      GapsAreSkipped(gap[1..], rest);
    }
  }

  lemma LeadingField(w: string, rest: string)
    requires Unbroken(w) && (rest == "" || IsBlank(rest[0]))
    ensures Fields(w + rest) == [w] + Fields(rest)
  {
    forall c | c in w ensures !IsSpace(c) { BlankIsSpace(c); }
    if rest != "" { BlankIsSpace(rest[0]); }
    var s := w + rest;
    WordLengthIs(w, rest);
    assert s[0] == w[0] && w[0] in w;
    assert s[..|w|] == w && s[|w|..] == rest;
  }

  lemma NextIsBlank(t: Spacing)
    requires Alternating(t) && (t.Field? ==> t.gap != "")
    ensures Spelled(t) == "" || IsBlank(Spelled(t)[0])
  {
    assert t.gap != "" ==> IsBlank(t.gap[0]);
  }

  /** However a text alternates between blank gaps and unbroken fields, those are its fields. */
  lemma {:induction false} FieldsOfSpacing(t: Spacing)
    requires Alternating(t)
    ensures Fields(Spelled(t)) == FieldsIn(t)
  {
    match t {
      case End(gap) =>
        GapsAreSkipped(gap, "");
        assert gap + "" == gap;
      case Field(gap, field, rest) =>
        NextIsBlank(rest);
        FieldsOfSpacing(rest);
        LeadingField(field, Spelled(rest));
        GapsAreSkipped(gap, field + Spelled(rest));
    }
  }

  /** A character in front of a text widens its first gap or field, or is a field of its own. */
  function InFront(c: char, t: Spacing): Spacing {
    if IsBlank(c) then t.(gap := [c] + t.gap)
    else if t.Field? && t.gap == "" then t.(field := [c] + t.field)
    else Field("", [c], t)
  }

  lemma InFrontSpells(c: char, t: Spacing)
    requires Alternating(t)
    ensures Alternating(InFront(c, t)) && Spelled(InFront(c, t)) == [c] + Spelled(t)
  {
    if !IsBlank(c) && t.Field? && t.gap == "" {
      assert "" + ([c] + t.field + Spelled(t.rest)) == [c] + ("" + (t.field + Spelled(t.rest)));
    }
  }

  /** And every text does. */
  lemma {:induction false} EveryTextIsSpaced(s: string) returns (t: Spacing)
    ensures Alternating(t) && Spelled(t) == s
  {
    if s == "" {
      t := End("");
    } else {
      t := EveryTextIsSpaced(s[1..]);
      InFrontSpells(s[0], t);
      t := InFront(s[0], t);
    }
  }

  lemma LowerOfLetters(c: char, i: nat)
    requires i < 26
    ensures Lower("ABCDEFGHIJKLMNOPQRSTUVWXYZ"[i]) == "abcdefghijklmnopqrstuvwxyz"[i]
    ensures !('A' <= c <= 'Z') ==> Lower(c) == c
  {
  }

  lemma {:induction false} LowerAt(s: string, i: nat)
    requires i < |s|
    ensures LowerAll(s)[i] == Lower(s[i])
  {
    if i > 0 {
      LowerAt(s[1..], i - 1);
    }
  }

  lemma {:induction false} LowerAppend(s: string, t: string)
    ensures LowerAll(s + t) == LowerAll(s) + LowerAll(t)
  {
    forall i | 0 <= i < |s + t| ensures LowerAll(s + t)[i] == (LowerAll(s) + LowerAll(t))[i] {
      LowerAt(s + t, i);
      if i < |s| { LowerAt(s, i); } else { LowerAt(t, i - |s|); }
    }
  }

  lemma LowerTwice(s: string)
    ensures LowerAll(LowerAll(s)) == LowerAll(s)
  {
  }

  function LowerFields(fields: seq<string>): (r: seq<string>)
    ensures |r| == |fields|
  {
    if fields == [] then [] else [LowerAll(fields[0])] + LowerFields(fields[1..])
  }

  lemma LowerWord(w: string)
    requires Word(w)
    ensures Word(LowerAll(w))
  {
  }

  lemma {:induction false} LowerWords(fields: seq<string>)
    requires Words(fields)
    ensures Words(LowerFields(fields))
  {
    if fields != [] {
      LowerWord(fields[0]);
      LowerWords(fields[1..]);
    }
  }

  /** Lowering commutes with joining. */
  lemma {:induction false} LowerOfJoin(fields: seq<string>)
    ensures LowerAll(Join(fields)) == Join(LowerFields(fields))
  {
    if |fields| > 1 {
      LowerOfJoin(fields[1..]);
      LowerAppend(fields[0] + " ", Join(fields[1..]));
      LowerAppend(fields[0], " ");
      assert LowerAll(" ") == " ";
      assert LowerFields(fields)[1..] == LowerFields(fields[1..]);
    } else if |fields| == 1 {
      assert LowerFields(fields) == [LowerAll(fields[0])];
    }
  }

  /** The fields of a normalized text are the text's fields, lower-cased. */
  lemma FieldsOfNormalized(s: string)
    ensures Fields(NormalizeText(s)) == LowerFields(Fields(s))
    ensures NormalizeText(s) == Join(LowerFields(Fields(s)))
  {
    FieldsAreWords(s);
    LowerOfJoin(Fields(s));
    LowerWords(Fields(s));
    FieldsOfJoin(LowerFields(Fields(s)));
  }

  /** Two texts normalize alike exactly if their lower-cased fields are the same. */
  lemma NormalizeAlike(s: string, t: string)
    ensures NormalizeText(s) == NormalizeText(t) <==> LowerFields(Fields(s)) == LowerFields(Fields(t))
  {
    FieldsOfNormalized(s);
    FieldsOfNormalized(t);
  }

  lemma {:induction false} LowerFieldsTwice(fields: seq<string>)
    ensures LowerFields(LowerFields(fields)) == LowerFields(fields)
  {
    if fields != [] {
      LowerTwice(fields[0]);
      LowerFieldsTwice(fields[1..]);
      assert LowerFields(fields)[1..] == LowerFields(fields[1..]);
    }
  }

  lemma NormalizeIsIdempotent(s: string)
    ensures NormalizeText(NormalizeText(s)) == NormalizeText(s)
  {
    FieldsOfNormalized(s);
    FieldsOfNormalized(NormalizeText(s));
    LowerFieldsTwice(Fields(s));
  }

  /** Lower-case words with one space between them and none around. */
  ghost predicate Canonical(s: string) {
    && (forall i :: 0 <= i < |s| ==> Lower(s[i]) == s[i])
    && (forall i :: 0 <= i < |s| && IsSpace(s[i]) ==> s[i] == ' ' && 0 < i < |s| - 1 && !IsSpace(s[i + 1]))
  }

  lemma {:induction false} JoinedIsSpaced(fields: seq<string>)
    requires Words(fields)
    ensures var s := Join(fields);
            && (fields != [] ==> s != "" && !IsSpace(s[0]))
            && forall i :: 0 <= i < |s| && IsSpace(s[i]) ==> s[i] == ' ' && 0 < i < |s| - 1 && !IsSpace(s[i + 1])
  {
    if fields != [] {
      var w := fields[0];
      forall i | 0 <= i < |w| ensures !IsSpace(w[i]) {
        assert w[i] in w;
      }
      if |fields| > 1 {
        var rest := Join(fields[1..]);
        JoinedIsSpaced(fields[1..]);
        var s := w + " " + rest;
        assert forall i :: |w| < i < |s| ==> s[i] == rest[i - |w| - 1];
      }
    }
  }

  /** What follows a space of a canonical text is canonical and does not start with a space. */
  lemma CanonicalTail(s: string, n: nat)
    requires Canonical(s) && n < |s| && IsSpace(s[n])
    ensures s[n] == ' ' && n + 1 < |s| && Canonical(s[n + 1..]) && !IsSpace(s[n + 1])
  {
    var tail := s[n + 1..];
    assert |tail| == |s| - n - 1 && forall i :: 0 <= i < |tail| ==> tail[i] == s[n + 1 + i];
  }

  /** A canonical text is its first word, or that word, a space and a non-empty canonical text. */
  lemma CanonicalSplits(s: string)
    requires Canonical(s) && s != ""
    ensures var n := WordLength(s);
            && 0 < n
            && (n < |s| ==> s[n] == ' ' && n + 1 < |s| && Canonical(s[n + 1..]) && !IsSpace(s[n + 1]))
  {
    assert !IsSpace(s[0]);
    if WordLength(s) < |s| {
      CanonicalTail(s, WordLength(s));
    }
  }

  lemma FieldsOfSplit(s: string)
    requires s != "" && !IsSpace(s[0]) && WordLength(s) < |s|
    ensures var n := WordLength(s); Fields(s) == [s[..n]] + Fields(s[n + 1..])
  {
    var n := WordLength(s);
    assert s[n..][1..] == s[n + 1..];
    assert Fields(s[n..]) == Fields(s[n + 1..]);
  }

  lemma JoinInFront(w: string, fields: seq<string>)
    requires fields != []
    ensures Join([w] + fields) == w + " " + Join(fields)
  {
    assert ([w] + fields)[1..] == fields;
  }

  lemma Glued(s: string, n: nat, fields: seq<string>, rest: seq<string>)
    requires n < |s| && s[n] == ' ' && fields == [s[..n]] + rest && rest != [] && Join(rest) == s[n + 1..]
    ensures Join(fields) == s && fields != []
  {
    JoinInFront(s[..n], rest);
    assert s == s[..n] + " " + s[n + 1..];
  }

  lemma JoinStep(s: string, n: nat)
    requires s != "" && !IsSpace(s[0]) && n == WordLength(s) < |s| && s[n] == ' '
    requires Fields(s[n + 1..]) != [] && Join(Fields(s[n + 1..])) == s[n + 1..]
    ensures Join(Fields(s)) == s && Fields(s) != []
  {
    FieldsOfSplit(s);
    Glued(s, n, Fields(s), Fields(s[n + 1..]));
  }

  lemma OneField(s: string)
    requires s != "" && !IsSpace(s[0]) && WordLength(s) == |s|
    ensures Fields(s) == [s] && Join([s]) == s
  {
    assert s[|s|..] == "" && s[..|s|] == s;
    assert Fields(s) == [s] + Fields("");
  }

  lemma {:induction false} JoinOfFields(s: string)
    requires Canonical(s)
    ensures Join(Fields(s)) == s
    ensures s != "" ==> Fields(s) != []
    decreases |s|
  {
    if s != "" {
      CanonicalSplits(s);
      var n := WordLength(s);
      if n < |s| {
        JoinOfFields(s[n + 1..]);
        JoinStep(s, n);
      } else {
        OneField(s);
      }
    }
  }

  /** The normalized texts are exactly the canonical ones. */
  lemma NormalizedIffCanonical(s: string)
    ensures NormalizeText(s) == s <==> Canonical(s)
  {
    FieldsAreWords(s);
    if NormalizeText(s) == s {
      FieldsOfNormalized(s);
      JoinedIsSpaced(Fields(s));
      forall i | 0 <= i < |s| ensures Lower(s[i]) == s[i] {
        LowerTwice(Join(Fields(s)));
        LowerAt(s, i);
      }
    }
    if Canonical(s) {
      JoinOfFields(s);
      forall i | 0 <= i < |s| ensures LowerAll(s)[i] == s[i] {
        LowerAt(s, i);
      }
    }
  }

  // ---------- keys ----------

  const DIGEST_SIZE: nat := 32

  ghost predicate Sized(sha: string -> seq<byte>) { forall s :: |sha(s)| == DIGEST_SIZE }

  /** The digest tells these two texts apart. */
  predicate NoCollision(sha: string -> seq<byte>, s: string, t: string) { sha(s) == sha(t) ==> s == t }

  function Key(sha: string -> seq<byte>, platform: string, senderId: string, text: string): string {
    "sendall:" + platform + ":" + senderId + ":" + Hex(sha(NormalizeText(text)))
  }

  function PublishedKey(overlayId: string, groupId: string): string {
    "sendall:pub:" + overlayId + ":" + groupId
  }

  lemma CommonPrefix(p: string, x: string, y: string)
    ensures p + x == p + y <==> x == y
  {
    assert (p + x)[|p|..] == x && (p + y)[|p|..] == y;
  }

  /** Whatever the names, the key determines the platform and sender as one field, and the text's digest. */
  lemma KeyDetermines(
    sha: string -> seq<byte>, p: string, s: string, x: string, q: string, t: string, y: string)
    requires Sized(sha)
    ensures Key(sha, p, s, x) == Key(sha, q, t, y)
       <==> p + ":" + s == q + ":" + t && sha(NormalizeText(x)) == sha(NormalizeText(y))
  {
    var hx, hy := Hex(sha(NormalizeText(x))), Hex(sha(NormalizeText(y)));
    var ps, qt := p + ":" + s, q + ":" + t;
    assert Key(sha, p, s, x) == "sendall:" + (ps + ":" + hx);
    assert Key(sha, q, t, y) == "sendall:" + (qt + ":" + hy);
    CommonPrefix("sendall:", ps + ":" + hx, qt + ":" + hy);
    LastField(ps, hx, qt, hy);
    if hx == hy {
      HexIsInjective(sha(NormalizeText(x)), sha(NormalizeText(y)));
    }
  }

  /** With platform names free of colons and unless the digest collides, keys are equal exactly if platform,
      sender and normalized text are; the sender id may contain colons. */
  lemma KeysAreExact(sha: string -> seq<byte>, p: string, s: string, x: string, q: string, t: string, y: string)
    requires Sized(sha) && ColonFree(p) && ColonFree(q) && NoCollision(sha, NormalizeText(x), NormalizeText(y))
    ensures Key(sha, p, s, x) == Key(sha, q, t, y) <==> p == q && s == t && NormalizeText(x) == NormalizeText(y)
  {
    KeyDetermines(sha, p, s, x, q, t, y);
    FirstField(p, s, q, t);
  }

  /** A colon in a platform name lets two different senders share a key. */
  lemma ColonInPlatformCollides(sha: string -> seq<byte>, p: string, q: string, s: string, text: string)
    ensures Key(sha, p + ":" + q, s, text) == Key(sha, p, q + ":" + s, text)
  {
  }

  lemma PublishedKeysAreExact(o: string, g: string, p: string, h: string)
    requires ColonFree(o) && ColonFree(p)
    ensures PublishedKey(o, g) == PublishedKey(p, h) <==> o == p && g == h
  {
    assert PublishedKey(o, g) == "sendall:pub:" + (o + ":" + g);
    assert PublishedKey(p, h) == "sendall:pub:" + (p + ":" + h);
    CommonPrefix("sendall:pub:", o + ":" + g, p + ":" + h);
    FirstField(o, g, p, h);
  }

  /** Registrations of a colon-free platform can meet a published marker exactly if it is called "pub". */
  lemma MarkersAreApartIffNotPub(sha: string -> seq<byte>, platform: string)
    requires ColonFree(platform)
    ensures (exists s, x, o, g :: Key(sha, platform, s, x) == PublishedKey(o, g)) <==> platform == "pub"
  {
    if platform == "pub" {
      var h := Hex(sha(NormalizeText("")));
      assert Key(sha, "pub", "", "") == PublishedKey("", h) by {
        assert "sendall:" + "pub" + ":" + "" + ":" + h == "sendall:pub:" + "" + ":" + h;
      }
    } else {
      forall s, x, o, g ensures Key(sha, platform, s, x) != PublishedKey(o, g) {
        var h := Hex(sha(NormalizeText(x)));
        assert Key(sha, platform, s, x) == "sendall:" + (platform + ":" + (s + ":" + h));
        assert PublishedKey(o, g) == "sendall:" + ("pub" + ":" + (o + ":" + g));
        CommonPrefix("sendall:", platform + ":" + (s + ":" + h), "pub" + ":" + (o + ":" + g));
        FirstField(platform, s + ":" + h, "pub", o + ":" + g);
      }
    }
  }
}
