/** `extractCommand` (main.go:334-348): the cooldown bucket a text falls in. */
module Command {
  import opened Types
  import opened Text

  const Slash: byte := 0x2F
  const Space: byte := 0x20

  /** Bytes kept of a text that is not a slash command. */
  const FallbackWidth: nat := 20

  /** The trimmed text starts with `/`. */
  predicate IsSlashCommand(t: Bytes)
  {
    |t| > 0 && t[0] == Slash
  }

  /** Trim; a slash command is cut at its first space byte (only `' '`, not
      other whitespace); any other text is cut to its first 20 bytes. */
  function ExtractCommand(text: Bytes): (key: Bytes)
    ensures var t := TrimSpace(text);
      && |key| <= |t| && key == t[..|key|]
      && (IsSlashCommand(t) ==>
            && IsSlashCommand(key)
            && Space !in key
            && (|key| == |t| || t[|key|] == Space))
      && (!IsSlashCommand(t) ==>
            |key| == if |t| <= FallbackWidth then |t| else FallbackWidth)
  {
    var t := TrimSpace(text);
    if IsSlashCommand(t) then
      UpTo(t, Space)
    else if |t| > FallbackWidth then
      t[..FallbackWidth]
    else
      t
  }

  /** A key is never longer than the trimmed text, and a non-command key
      never exceeds 20 bytes. */
  lemma ExtractCommandBounds(text: Bytes)
    ensures |ExtractCommand(text)| <= |TrimSpace(text)|
    ensures !IsSlashCommand(TrimSpace(text)) ==> |ExtractCommand(text)| <= FallbackWidth
    ensures text == [] ==> ExtractCommand(text) == []
  {
    if text == [] {
      TrimSpaceIsTrim(text);
      var i: nat :| TrimAt(TrimSpace(text), text, i);
    }
  }

  /** Every reply the bot sends begins with a fixed header; when the header
      starts with a byte that is neither whitespace nor `/` and still has a
      non-space byte at offset 20 or later, the key of the reply is the first
      20 bytes of the header, whatever follows it. */
  lemma {:induction false} KeyOfHeader(h: Bytes, body: Bytes, k: nat)
    requires FallbackWidth <= k < |h|
    requires !IsSpace(h[0]) && h[0] != Slash && !IsSpace(h[k])
    ensures ExtractCommand(h + body) == h[..FallbackWidth]
  {
    var s := h + body;
    assert s[0] == h[0] && s[k] == h[k];
    TrimKeepsFrom(s, k);
    var t := TrimSpace(s);
    assert t[0] == s[0];
    LongChatterKey(s);
    assert t[..FallbackWidth] == s[..FallbackWidth];
    assert s[..FallbackWidth] == h[..FallbackWidth];
  }

  /** Trimming a text that starts with a non-space byte keeps a prefix of it,
      at least as far as any later non-space byte. */
  lemma TrimKeepsFrom(s: Bytes, k: nat)
    requires k < |s| && !IsSpace(s[0]) && !IsSpace(s[k])
    ensures k < |TrimSpace(s)| && TrimSpace(s) == s[..|TrimSpace(s)|]
  {
    var t := TrimSpace(s);
    TrimSpaceIsTrim(s);
    var i: nat :| TrimAt(t, s, i);
    NonSpaceInside(t, s, i, 0);
    NonSpaceInside(t, s, i, k);
  }

  /** The key of a text that is already trimmed and starts with `/` is the
      text up to the first space byte. */
  lemma KeyOfCommand(text: Bytes, n: nat)
    requires IsSlashCommand(text) && !IsSpace(text[|text| - 1])
    requires n <= |text| && (n == |text| || text[n] == Space)
    requires forall i :: 0 <= i < n ==> text[i] != Space
    ensures ExtractCommand(text) == text[..n]
  {
    TrimmedCommandKey(text);
    UpToFirst(text, Space, n);
  }

  /** The key of chatter longer than 20 bytes once trimmed is its first
      20 trimmed bytes. */
  lemma KeyOfChatter(text: Bytes, t: Bytes)
    requires IsTrimOf(t, text) && !IsSlashCommand(t) && |t| > FallbackWidth
    ensures ExtractCommand(text) == t[..FallbackWidth]
  {
    TrimOfIsTrimSpace(t, text);
    LongChatterKey(text);
  }

  lemma LongChatterKey(text: Bytes)
    requires !IsSlashCommand(TrimSpace(text)) && |TrimSpace(text)| > FallbackWidth
    ensures ExtractCommand(text) == TrimSpace(text)[..FallbackWidth]
  {
  }

  /** `UpTo` stops at the first separator. */
  lemma UpToFirst(s: Bytes, sep: byte, n: nat)
    requires n <= |s| && (n == |s| || s[n] == sep)
    requires forall i :: 0 <= i < n ==> s[i] != sep
    ensures UpTo(s, sep) == s[..n]
  {
  }

  lemma TrimmedCommandKey(text: Bytes)
    requires IsSlashCommand(text) && !IsSpace(text[|text| - 1])
    ensures ExtractCommand(text) == UpTo(text, Space)
  {
    assert !IsSpace(text[0]);
    TrimSpaceKeepsTrimmed(text);
    assert TrimSpace(text) == text;
  }
}
