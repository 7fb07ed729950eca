/** How the push pass derives an S3 key from a path relative to the mount. */
module ObjectKeys {

  /** The character a single path character becomes in an S3 key. */
  function KeyChar(c: char): char
  {
    if c == '\\' then '/' else c
  }

  /**
   * The S3 key for a relative path: the same characters, position by
   * position, except that every backslash becomes a forward slash.
   */
  function ToS3Key(relativePath: string): (key: string)
    ensures |key| == |relativePath|
    ensures forall i :: 0 <= i < |key| && relativePath[i] != '\\' ==> key[i] == relativePath[i]
    ensures forall i :: 0 <= i < |key| && relativePath[i] == '\\' ==> key[i] == '/'
    ensures '\\' !in key
  {
    if |relativePath| == 0 then ""
    else [KeyChar(relativePath[0])] + ToS3Key(relativePath[1..])
  }

  /** A path that already uses forward slashes is its own key. */
  lemma SlashPathIsItsOwnKey(relativePath: string)
    requires '\\' !in relativePath
    ensures ToS3Key(relativePath) == relativePath
  {
  }

  /** Deriving a key twice gives the same key as deriving it once. */
  lemma ToS3KeyIdempotent(relativePath: string)
    ensures ToS3Key(ToS3Key(relativePath)) == ToS3Key(relativePath)
  {
    SlashPathIsItsOwnKey(ToS3Key(relativePath));
  }

  /** Key derivation works segment by segment: it commutes with concatenation. */
  lemma ToS3KeyAppend(a: string, b: string)
    ensures ToS3Key(a + b) == ToS3Key(a) + ToS3Key(b)
  {
  }
}
