/** Acceptance of the decrypted API key, chk-odoo-dups.py:63-81: the key file must
    exist, decryption must report success, and the decrypted text, stripped of
    surrounding whitespace, must not be empty. */
module ApiKey {
  import opened Wrappers

  /** The characters Python's `str.strip()` removes when given no argument: those for
      which `str.isspace()` holds. */
  predicate IsSpace(c: char)
  {
    var n := c as int;
    || 0x09 <= n <= 0x0D
    || 0x1C <= n <= 0x20
    || n == 0x85 || n == 0xA0 || n == 0x1680
    || 0x2000 <= n <= 0x200A
    || n == 0x2028 || n == 0x2029 || n == 0x202F || n == 0x205F || n == 0x3000
  }

  /** Nothing but whitespace (or nothing at all). */
  predicate Blank(s: string)
  {
    forall k :: 0 <= k < |s| ==> IsSpace(s[k])
  }

  /** `s` without its leading whitespace: the longest suffix not starting with it. */
  function StripLeading(s: string): (r: string)
    ensures |r| <= |s| && r == s[|s| - |r|..]
    ensures forall k :: 0 <= k < |s| - |r| ==> IsSpace(s[k])
    ensures r != [] ==> !IsSpace(r[0])
  {
    if s != [] && IsSpace(s[0]) then StripLeading(s[1..]) else s
  }

  /** `s` without its trailing whitespace: the longest prefix not ending with it. */
  function StripTrailing(s: string): (r: string)
    ensures |r| <= |s| && r == s[..|r|]
    ensures forall k :: |r| <= k < |s| ==> IsSpace(s[k])
    ensures r != [] ==> !IsSpace(r[|r| - 1])
  {
    if s != [] && IsSpace(s[|s| - 1]) then StripTrailing(s[..|s| - 1]) else s
  }

  /** Python's `s.strip()`: the slice of `s` left once whitespace is removed from
      both ends. It is empty exactly when `s` is blank, and otherwise begins and ends
      with a non-whitespace character. */
  function Strip(s: string): (r: string)
    ensures var lo := |s| - |StripLeading(s)|;
      && lo + |r| <= |s|
      && r == s[lo..lo + |r|]
      && (forall k :: 0 <= k < lo ==> IsSpace(s[k]))
      && (forall k :: lo + |r| <= k < |s| ==> IsSpace(s[k]))
    ensures r != [] ==> !IsSpace(r[0]) && !IsSpace(r[|r| - 1])
    ensures r == [] <==> Blank(s)
  {
    StripTrailing(StripLeading(s))
  }

  /** Stripping a second time changes nothing. */
  lemma StripIdempotent(s: string)
    ensures Strip(Strip(s)) == Strip(s)
  {
    var r := Strip(s);
    if r != [] {
      assert StripLeading(r) == r;
    }
  }

  /** The outcome of `GPG.decrypt_file`: whether it succeeded and the text it gave. */
  datatype Decryption = Decryption(ok: bool, text: string)

  /** The three exits of `get_api_key`. */
  datatype KeyError = NoEncryptedKey | DecryptionFailed | EmptyKey

  /** `get_api_key`, given whether the encrypted key file exists and what decrypting
      it gave. */
  function GetApiKey(keyFileExists: bool, decryption: Decryption): (r: Result<string, KeyError>)
    ensures !keyFileExists ==> r == Failure(NoEncryptedKey)
    ensures keyFileExists && !decryption.ok ==> r == Failure(DecryptionFailed)
    ensures keyFileExists && decryption.ok && Blank(decryption.text) ==> r == Failure(EmptyKey)
    ensures r.Success? <==> keyFileExists && decryption.ok && !Blank(decryption.text)
    ensures r.Success? ==> r.value != [] && r.value == Strip(decryption.text)
  {
    if !keyFileExists then Failure(NoEncryptedKey)
    else if !decryption.ok then Failure(DecryptionFailed)
    else
      var key := Strip(decryption.text);
      if key == [] then Failure(EmptyKey) else Success(key)
  }

  /** An accepted key is already clean: stripping it again leaves it as it is. */
  lemma AcceptedKeyIsStripped(keyFileExists: bool, decryption: Decryption)
    requires GetApiKey(keyFileExists, decryption).Success?
    ensures Strip(GetApiKey(keyFileExists, decryption).value) == GetApiKey(keyFileExists, decryption).value
  {
    StripIdempotent(decryption.text);
  }
}
