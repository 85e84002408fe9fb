/** The byte transform applied to a whole project archive on save and on load
    (`obfuscate`), and the cleaning of an imported asset's file name
    (`sanitize_asset_name`) that becomes its `assets/{name}` archive entry. */
module Codec {
  import opened Domain

  /** The constant every byte is XORed with. */
  const Key: bv8 := 0xA5

  /** The transform on a byte string. */
  function XorAll(s: seq<bv8>): (r: seq<bv8>)
    ensures |r| == |s|
    ensures forall i :: 0 <= i < |s| ==> r[i] == s[i] ^ Key
  {
    seq(|s|, i requires 0 <= i < |s| => s[i] ^ Key)
  }

  /** `obfuscate(buffer)`: XOR every byte in place. */
  method Obfuscate(buffer: array<bv8>)
    modifies buffer
    ensures buffer[..] == XorAll(old(buffer[..]))
  {
    var i := 0;
    while i < buffer.Length
      invariant 0 <= i <= buffer.Length
      invariant forall k :: 0 <= k < i ==> buffer[k] == old(buffer[k]) ^ Key
      invariant forall k :: i <= k < buffer.Length ==> buffer[k] == old(buffer[k])
    {
      buffer[i] := buffer[i] ^ Key;
      i := i + 1;
    }
  }

  /** The transform is its own inverse: loading what was saved gives back the archive. */
  lemma XorAllInvolution(s: seq<bv8>)
    ensures XorAll(XorAll(s)) == s
  {
    forall i | 0 <= i < |s| ensures XorAll(XorAll(s))[i] == s[i] {
      assert (s[i] ^ Key) ^ Key == s[i];
    }
  }

  /** The transform changes every byte: no byte of a saved file equals the archive's. */
  lemma XorAllChangesEveryByte(s: seq<bv8>)
    ensures forall i :: 0 <= i < |s| ==> XorAll(s)[i] != s[i]
  {
    forall i | 0 <= i < |s| ensures XorAll(s)[i] != s[i] {
      assert s[i] ^ Key != s[i];
    }
  }

  /** The characters an asset name keeps: ASCII letters and digits, `.`, `_` and `-`. */
  predicate AssetChar(c: char) {
    ('a' <= c <= 'z') || ('A' <= c <= 'Z') || ('0' <= c <= '9') || c == '.' || c == '_' || c == '-'
  }

  /** The name used when nothing usable remains. */
  const FallbackAssetName := "asset.bin"

  /** The character map: keep an allowed character, replace any other by `_`. */
  function CleanChars(name: string): (r: string)
    ensures |r| == |name|
    ensures forall i :: 0 <= i < |name| ==> r[i] == (if AssetChar(name[i]) then name[i] else '_')
  {
    seq(|name|, i requires 0 <= i < |name| => if AssetChar(name[i]) then name[i] else '_')
  }

  /** `sanitize_asset_name(path)`, given the path's last component as text (`None` when the
      path has no file name or it is not valid UTF-8). */
  function SanitizeAssetName(fileName: Option<string>): (r: string)
    ensures r != []
    ensures forall i :: 0 <= i < |r| ==> AssetChar(r[i])
    ensures fileName.Some? && fileName.value != [] ==> r == CleanChars(fileName.value)
    ensures fileName.None? || fileName.value == [] ==> r == FallbackAssetName
  {
    if fileName.Some? && fileName.value != [] then CleanChars(fileName.value) else FallbackAssetName
  }

  /** A name that is already clean is left alone, so cleaning is idempotent. */
  lemma SanitizeKeepsCleanNames(name: string)
    requires name != [] && forall i :: 0 <= i < |name| ==> AssetChar(name[i])
    ensures SanitizeAssetName(Some(name)) == name
  {
  }

  lemma SanitizeIdempotent(fileName: Option<string>)
    ensures SanitizeAssetName(Some(SanitizeAssetName(fileName))) == SanitizeAssetName(fileName)
  {
    SanitizeKeepsCleanNames(SanitizeAssetName(fileName));
  }

  /** The archive entry of an asset: `assets/{name}`. */
  function AssetEntryName(name: string): string {
    "assets/" + name
  }

  /** The entry of a sanitized asset lies directly inside `assets/`: its only `/` is the
      directory separator. */
  lemma AssetEntryHasOneSeparator(fileName: Option<string>)
    ensures var e := AssetEntryName(SanitizeAssetName(fileName));
            |e| > 7 && e[..7] == "assets/" && forall i :: 7 <= i < |e| ==> e[i] != '/'
  {
    var n := SanitizeAssetName(fileName);
    var e := AssetEntryName(n);
    forall i | 7 <= i < |e| ensures e[i] != '/' {
      assert e[i] == n[i - 7];
    }
  }
}
