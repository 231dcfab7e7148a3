/**
 * backend/utils/generateShortcode.js: a nanoid generator over a fixed
 * 62-symbol alphabet with codes of length 6, and the loop that draws codes
 * until a lookup in the collection finds none with that code.
 *
 * nanoid's random source is abstract: a draw is the six alphabet positions
 * it picked, and the generator is handed the stream of draws it will see.
 */
module GenerateShortcode {
  import opened Wrappers
  import opened UrlModel

  /** The `n` consecutive characters starting at `first`. */
  function Span(first: char, n: nat): string
    requires first as int + n <= 0xD800
  {
    seq(n, k requires 0 <= k < n => (first as int + k) as char)
  }

  /** The alphabet passed to `customAlphabet`: the lower-case letters, the upper-case letters, then the digits. */
  const Alphabet: string := Span('a', 26) + Span('A', 26) + Span('0', 10)

  /** The code length passed to `customAlphabet`. */
  const Size: nat := 6

  predicate IsAlphanumeric(c: char) {
    'a' <= c <= 'z' || 'A' <= c <= 'Z' || '0' <= c <= '9'
  }

  /** A code nanoid can return: `Size` symbols, each from the alphabet. */
  predicate IsShortcode(code: string) {
    |code| == Size && forall k :: 0 <= k < |code| ==> code[k] in Alphabet
  }

  /** One call of nanoid, as the alphabet positions its random bytes selected. */
  type Draw = seq<nat>

  predicate ValidDraw(d: Draw) {
    |d| == Size && forall k :: 0 <= k < |d| ==> d[k] < |Alphabet|
  }

  predicate ValidStream(source: seq<Draw>) {
    forall i :: 0 <= i < |source| ==> ValidDraw(source[i])
  }

  /** `nanoid()`: the code spelled by one draw. */
  function Nanoid(d: Draw): (code: string)
    requires ValidDraw(d)
    ensures IsShortcode(code)
  {
    seq(Size, k requires 0 <= k < Size => Alphabet[d[k]])
  }

  /** The alphabet has 62 distinct symbols, and they are exactly a-z, A-Z and 0-9. */
  lemma AlphabetIsAlphanumeric()
    ensures |Alphabet| == 62
    ensures forall i, j :: 0 <= i < j < |Alphabet| ==> Alphabet[i] != Alphabet[j]
    ensures forall c :: c in Alphabet <==> IsAlphanumeric(c)
  {
    forall c | IsAlphanumeric(c) ensures c in Alphabet {
      if 'a' <= c <= 'z' {
        assert Alphabet[c as int - 'a' as int] == c;
      } else if 'A' <= c <= 'Z' {
        assert Alphabet[26 + c as int - 'A' as int] == c;
      } else {
        assert Alphabet[52 + c as int - '0' as int] == c;
      }
    }
  }

  /** Every code nanoid returns is 6 characters from a-z, A-Z and 0-9. */
  lemma ShortcodeIsAlphanumeric(code: string)
    requires IsShortcode(code)
    ensures |code| == 6 && forall k :: 0 <= k < |code| ==> IsAlphanumeric(code[k])
  {
    AlphabetIsAlphanumeric();
  }

  /**
   * `generateUniqueShortcode()` run against the collection `store`, seeing
   * the draws in `source`. It returns the first drawn code that `findOne`
   * does not find, with the number of lookups made. The source loop has no
   * retry bound; when every draw in `source` is taken the result is None:
   * the loop is still running after those `|source|` lookups.
   */
  method GenerateUniqueShortcode(store: Collection, source: seq<Draw>) returns (shortcode: Option<string>, lookups: nat)
    requires ValidStream(source)
    ensures lookups <= |source|
    ensures shortcode.Some? ==> IsShortcode(shortcode.value) && FindOne(store, shortcode.value).None?
    ensures shortcode.Some? ==> 0 < lookups && shortcode.value == Nanoid(source[lookups - 1])
    ensures shortcode.None? ==> lookups == |source|
    ensures forall j :: 0 <= j < lookups && (shortcode.Some? ==> j < lookups - 1) ==>
              FindOne(store, Nanoid(source[j])).Some?
  {
    var taken := true;
    var code: string := "";
    lookups := 0;
    while taken && lookups < |source|
      invariant lookups <= |source|
      invariant forall j :: 0 <= j < lookups && (!taken ==> j < lookups - 1) ==>
                  FindOne(store, Nanoid(source[j])).Some?
      invariant !taken ==> 0 < lookups && code == Nanoid(source[lookups - 1]) && FindOne(store, code).None?
    {
      code := Nanoid(source[lookups]);
      var found := FindOne(store, code);
      lookups := lookups + 1;
      if found.None? {
        taken := false;
      }
    }
    shortcode := if taken then None else Some(code);
  }

  /**
   * A code the generator returns can be saved: a draft carrying it and an
   * original URL passes validation and the unique index, and the collection
   * stays valid.
   */
  lemma FreshCodeCanBeSaved(store: Collection, code: string, originalUrl: string, expiresAt: Option<Time>, now: Time)
    requires ValidCollection(store)
    requires IsShortcode(code) && FindOne(store, code).None?
    requires originalUrl != ""
    ensures Insert(store, UrlDraft(Some(originalUrl), Some(code), None, expiresAt, []), now).Success?
    ensures ValidCollection(Insert(store, UrlDraft(Some(originalUrl), Some(code), None, expiresAt, []), now).value)
  {
    var draft := UrlDraft(Some(originalUrl), Some(code), None, expiresAt, []);
    assert Present(draft.shortcode);
    InsertPreservesValid(store, draft, now);
  }

  /** The draw that spells "aaaaaa". */
  function FirstDraw(): (d: Draw)
    ensures ValidDraw(d)
  {
    [0, 0, 0, 0, 0, 0]
  }

  /**
   * The retry loop is unbounded: for every n there is a valid collection and
   * a stream of n valid draws in which every drawn code is already stored,
   * so the generator makes n lookups without returning.
   */
  lemma RetriesAreUnbounded(n: nat)
    ensures var store := [ShortUrl("https://example.com", Nanoid(FirstDraw()), 0, None, [])];
            var source := seq(n, _ => FirstDraw());
            ValidCollection(store) && ValidStream(source) &&
            forall j :: 0 <= j < n ==> FindOne(store, Nanoid(source[j])).Some?
  {
    var store := [ShortUrl("https://example.com", Nanoid(FirstDraw()), 0, None, [])];
    var source := seq(n, _ => FirstDraw());
    assert Nanoid(FirstDraw()) != "";
    forall j | 0 <= j < n ensures FindOne(store, Nanoid(source[j])).Some? {
      assert source[j] == FirstDraw();
      assert store[0].shortcode == Nanoid(source[j]);
    }
  }

  /**
   * The generator run on the collection and stream of `RetriesAreUnbounded`:
   * it makes all n lookups and returns no code, so n retries are not enough.
   */
  method RunOnTakenCodes(n: nat) returns (shortcode: Option<string>, lookups: nat)
    ensures shortcode.None? && lookups == n
  {
    RetriesAreUnbounded(n);
    var store := [ShortUrl("https://example.com", Nanoid(FirstDraw()), 0, None, [])];
    var source := seq(n, _ => FirstDraw());
    shortcode, lookups := GenerateUniqueShortcode(store, source);
  }
}
