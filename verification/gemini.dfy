/** The API-key handling of the Gemini article generator: the keys read from
    `apikey.txt`, the list assembled at start-up from the file, the
    constructor's key and the `GEMINI_API_KEY` environment variable, and the
    round-robin rotation that moves to the next key when one is exhausted.
    Reading the file, the environment and the call that configures the client
    are parameters. */
module Gemini {
  import opened Wrappers
  import Text
  import Seqs

  // ---------------------------------------------------------------------------
  // apikey.txt

  /** A line of the key file is used when it is not blank and does not begin
      with `#`; the test for `#` looks at the line before stripping. */
  predicate Kept(line: string) {
    Text.Strip(line) != [] && !Text.StartsWith(line, "#")
  }

  /** `[line.strip() for line in file if line.strip() and not line.startswith('#')]`. */
  function FileKeys(lines: seq<string>): (r: seq<string>)
    ensures |r| <= |lines|
    decreases |lines|
  {
    if lines == [] then []
    else
      var n := |lines| - 1;
      FileKeys(lines[..n]) + (if Kept(lines[n]) then [Text.Strip(lines[n])] else [])
  }

  /** `_read_api_keys`: `None` stands for a missing or unreadable file, which
      gives no keys. */
  function ReadApiKeys(file: Option<seq<string>>): seq<string> {
    match file
    case None => []
    case Some(lines) => FileKeys(lines)
  }

  /** Every kept line gives its stripped text as a key. */
  lemma {:induction false} KeptLineListed(lines: seq<string>, j: nat)
    requires j < |lines| && Kept(lines[j])
    ensures Text.Strip(lines[j]) in FileKeys(lines)
    decreases |lines|
  {
    var n := |lines| - 1;
    if j < n {
      assert lines[..n][j] == lines[j];
      KeptLineListed(lines[..n], j);
    }
  }

  /** Every key is the stripped text of a kept line. */
  lemma {:induction false} KeyFromKeptLine(lines: seq<string>, k: string)
    requires k in FileKeys(lines)
    ensures exists j :: 0 <= j < |lines| && Kept(lines[j]) && Text.Strip(lines[j]) == k
    decreases |lines|
  {
    var n := |lines| - 1;
    if k in FileKeys(lines[..n]) {
      KeyFromKeptLine(lines[..n], k);
      var j :| 0 <= j < n && Kept(lines[..n][j]) && Text.Strip(lines[..n][j]) == k;
      assert lines[j] == lines[..n][j];
    } else {
      assert Kept(lines[n]) && Text.Strip(lines[n]) == k;
    }
  }

  /** A key comes from the file exactly when some kept line strips to it,
      and every key is non-empty and already stripped. */
  lemma FileKeysFromLines(lines: seq<string>, k: string)
    ensures k in FileKeys(lines) <==> exists j :: 0 <= j < |lines| && Kept(lines[j]) && Text.Strip(lines[j]) == k
    ensures k in FileKeys(lines) ==> k != [] && Text.Strip(k) == k
  {
    if k in FileKeys(lines) {
      KeyFromKeptLine(lines, k);
      var j :| 0 <= j < |lines| && Kept(lines[j]) && Text.Strip(lines[j]) == k;
      Text.StripStripped(k);
    }
    if exists j :: 0 <= j < |lines| && Kept(lines[j]) && Text.Strip(lines[j]) == k {
      var j :| 0 <= j < |lines| && Kept(lines[j]) && Text.Strip(lines[j]) == k;
      KeptLineListed(lines, j);
    }
  }

  /** A comment indented by whitespace is not recognised as one: the line
      is kept and its stripped text, which begins with `#`, becomes a key. */
  lemma IndentedCommentKept(line: string)
    requires |line| >= 2 && Text.IsSpace(line[0]) && line[1] == '#'
    ensures Kept(line) && FileKeys([line]) == [Text.Strip(line)]
  {
    assert Text.Strip(line) != [] by {
      Text.StripEmptyIffBlank(line);
      assert !Text.IsSpace(line[1]);
    }
    assert !Text.StartsWith(line, "#") by {
      assert line[..1][0] == line[0] != '#';
    }
    assert [line][..0] == [];
  }

  // ---------------------------------------------------------------------------
  // Assembling the key list

  /** Python truthiness of an optional string: present and non-empty. */
  predicate Truthy(key: Option<string>) {
    key.Some? && key.value != []
  }

  /** The file's keys, then the constructor's key put in front when it is set
      and not already listed, then the environment's key in front of that on
      the same terms. */
  function KeyList(explicit: Option<string>, fileKeys: seq<string>, env: Option<string>): seq<string> {
    var withExplicit :=
      if Truthy(explicit) && explicit.value !in fileKeys then [explicit.value] + fileKeys else fileKeys;
    if Truthy(env) && env.value !in withExplicit then [env.value] + withExplicit else withExplicit
  }

  /** The list holds the file's keys and the set ones of the other two, and
      nothing else. */
  lemma KeyListMembers(explicit: Option<string>, fileKeys: seq<string>, env: Option<string>, k: string)
    ensures k in KeyList(explicit, fileKeys, env) <==>
      k in fileKeys || (Truthy(explicit) && k == explicit.value) || (Truthy(env) && k == env.value)
  {
  }

  /** Nothing is listed twice unless the file lists it twice. */
  lemma KeyListNoDuplicates(explicit: Option<string>, fileKeys: seq<string>, env: Option<string>)
    requires Seqs.NoDuplicates(fileKeys)
    ensures Seqs.NoDuplicates(KeyList(explicit, fileKeys, env))
  {
    var a := if Truthy(explicit) && explicit.value !in fileKeys then [explicit.value] + fileKeys else fileKeys;
    assert Seqs.NoDuplicates(a) by {
      if Truthy(explicit) && explicit.value !in fileKeys {
        PrependNoDuplicates(explicit.value, fileKeys);
      }
    }
    if Truthy(env) && env.value !in a {
      PrependNoDuplicates(env.value, a);
    }
  }

  lemma PrependNoDuplicates(x: string, s: seq<string>)
    requires Seqs.NoDuplicates(s) && x !in s
    ensures Seqs.NoDuplicates([x] + s)
  {
    var t := [x] + s;
    forall i, j | 0 <= i < j < |t|
      ensures t[i] != t[j]
    {
      assert t[j] == s[j - 1];
      if i > 0 {
        assert t[i] == s[i - 1];
      }
    }
  }

  /** The file's keys keep their order at the end of the list; a set
      environment key the file does not list comes first, and so does a set
      constructor key the file does not list when the environment gives no
      key or one the file already lists. */
  lemma KeyListOrder(explicit: Option<string>, fileKeys: seq<string>, env: Option<string>)
    ensures var keys := KeyList(explicit, fileKeys, env);
      && |fileKeys| <= |keys| <= |fileKeys| + 2
      && keys[|keys| - |fileKeys|..] == fileKeys
      && (Truthy(env) && env.value !in fileKeys ==> keys[0] == env.value)
      && ((!(Truthy(env) && env.value !in fileKeys) && Truthy(explicit) && explicit.value !in fileKeys)
            ==> keys[0] == explicit.value)
  {
    var a := if Truthy(explicit) && explicit.value !in fileKeys then [explicit.value] + fileKeys else fileKeys;
    assert |fileKeys| <= |a| <= |fileKeys| + 1 && a[|a| - |fileKeys|..] == fileKeys;
    var keys := KeyList(explicit, fileKeys, env);
    assert keys == if Truthy(env) && env.value !in a then [env.value] + a else a;
    assert keys[|keys| - |a|..] == a;
    assert keys[|keys| - |fileKeys|..] == a[|a| - |fileKeys|..];
  }

  /** Start-up fails exactly when the file gives no key and neither of the
      other two is set. */
  lemma KeyListEmpty(explicit: Option<string>, fileKeys: seq<string>, env: Option<string>)
    ensures KeyList(explicit, fileKeys, env) == [] <==> fileKeys == [] && !Truthy(explicit) && !Truthy(env)
  {
  }

  // ---------------------------------------------------------------------------
  // Rotation

  /** `(current_key_index + 1) % len(api_keys)`. */
  function NextIndex(i: nat, n: nat): (r: nat)
    requires n > 0
    ensures r < n
  {
    (i + 1) % n
  }

  /** The index after `k` rotations among `n` keys. */
  function Rotations(i: nat, n: nat, k: nat): nat
    requires n > 0
  {
    if k == 0 then i else NextIndex(Rotations(i, n, k - 1), n)
  }

  /** The next index is the following one, or the first after the last. */
  lemma NextIndexStep(i: nat, n: nat)
    requires i < n
    ensures NextIndex(i, n) == if i + 1 < n then i + 1 else 0
  {
  }

  /** Rotations compose: `a` of them and then `b` more are `a + b`. */
  lemma {:induction false} RotationsCompose(i: nat, n: nat, a: nat, b: nat)
    requires n > 0
    ensures Rotations(i, n, a + b) == Rotations(Rotations(i, n, a), n, b)
    decreases b
  {
    if b > 0 {
      RotationsCompose(i, n, a, b - 1);
    }
  }

  /** Before the end of the list each rotation moves one key on. */
  lemma {:induction false} RotationsUp(i: nat, n: nat, k: nat)
    requires i + k < n
    ensures Rotations(i, n, k) == i + k
    decreases k
  {
    if k > 0 {
      RotationsUp(i, n, k - 1);
      NextIndexStep(i + k - 1, n);
    }
  }

  /** From index `i`, `n - i` rotations reach the first key. */
  lemma RotationsWrap(i: nat, n: nat)
    requires i < n
    ensures Rotations(i, n, n - i) == 0
  {
    RotationsUp(i, n, n - i - 1);
    NextIndexStep(n - 1, n);
  }

  /** `n` rotations come back to the starting key. */
  lemma FullCycle(i: nat, n: nat)
    requires i < n
    ensures Rotations(i, n, n) == i
  {
    RotationsCompose(i, n, n - i, i);
    RotationsWrap(i, n);
    RotationsUp(0, n, i);
  }

  /** Every key is reached within `n` rotations. */
  lemma RotationReaches(i: nat, n: nat, j: nat)
    requires i < n && j < n
    ensures var k := if i <= j then j - i else n - i + j;
      k < n && Rotations(i, n, k) == j
  {
    if i <= j {
      RotationsUp(i, n, j - i);
    } else {
      RotationsCompose(i, n, n - i, j);
      RotationsWrap(i, n);
      RotationsUp(0, n, j);
    }
  }

  // ---------------------------------------------------------------------------
  // The scraper's key state

  /** `get_current_key_info`. */
  datatype KeyInfo = KeyInfo(currentIndex: nat, totalKeys: nat, keyPreview: string)

  /** `f"...{key[-6:]}"` for a set key, `"None"` otherwise. */
  function KeyPreview(key: Option<string>): string {
    if Truthy(key) then
      var k := key.value;
      "..." + (if |k| <= 6 then k else k[|k| - 6..])
    else "None"
  }

  /** The preview shows no more than the key's last six characters. */
  lemma KeyPreviewHides(key: Option<string>)
    ensures var p := KeyPreview(key);
      Truthy(key) ==>
        var k := key.value;
        && 4 <= |p| <= 9 && p[..3] == "..."
        && |p| - 3 <= |k| && p[3..] == k[|k| - (|p| - 3)..]
        && (|k| >= 6 ==> |p| == 9)
  {
    if Truthy(key) {
      var k := key.value;
      var p := KeyPreview(key);
      if |k| <= 6 {
        assert p[3..] == k;
        assert k[|k| - (|p| - 3)..] == k;
      } else {
        assert p[3..] == k[|k| - 6..];
      }
    }
  }

  class GeminiScraper {
    var apiKey: Option<string>
    var apiKeys: seq<string>
    var currentKeyIndex: nat

    /** The fields `__init__` sets before start-up. */
    constructor (key: Option<string>)
      ensures apiKey == key && apiKeys == [] && currentKeyIndex == 0
    {
      apiKey := key;
      apiKeys := [];
      currentKeyIndex := 0;
    }

    /** `_setup_gemini`: assembles the key list and selects its first key;
        `false` is the `ValueError` raised when there is none, after the
        empty list has been stored. */
    method SetupGemini(file: Option<seq<string>>, envKey: Option<string>) returns (ok: bool)
      modifies this
      ensures apiKeys == KeyList(old(apiKey), ReadApiKeys(file), envKey)
      ensures ok <==> apiKeys != []
      ensures ok ==> apiKey == Some(apiKeys[0])
      ensures !ok ==> apiKey == old(apiKey)
      ensures currentKeyIndex == old(currentKeyIndex)
    {
      apiKeys := ReadApiKeys(file);
      if Truthy(apiKey) {
        if apiKey.value !in apiKeys {
          apiKeys := [apiKey.value] + apiKeys;
        }
      }
      if Truthy(envKey) && envKey.value !in apiKeys {
        apiKeys := [envKey.value] + apiKeys;
      }
      if apiKeys == [] {
        return false;
      }
      apiKey := Some(apiKeys[0]);
      ok := true;
    }

    /** `rotate_api_key`: with one key or none nothing changes and the result
        is `false`; otherwise the index moves to the next key round the list
        and the key follows it, and the result is whether configuring the
        client with it succeeded (the move stands either way). */
    method RotateApiKey(configureSucceeds: bool) returns (rotated: bool)
      modifies this
      ensures apiKeys == old(apiKeys)
      ensures |apiKeys| <= 1 ==> !rotated && currentKeyIndex == old(currentKeyIndex) && apiKey == old(apiKey)
      ensures |apiKeys| > 1 ==>
        && currentKeyIndex == NextIndex(old(currentKeyIndex), |apiKeys|)
        && currentKeyIndex < |apiKeys|
        && apiKey == Some(apiKeys[currentKeyIndex])
        && rotated == configureSucceeds
    {
      if |apiKeys| <= 1 {
        return false;
      }
      currentKeyIndex := (currentKeyIndex + 1) % |apiKeys|;
      apiKey := Some(apiKeys[currentKeyIndex]);
      rotated := configureSucceeds;
    }

    /** `get_current_key_info`. */
    function CurrentKeyInfo(): (r: KeyInfo)
      reads this
      ensures r.currentIndex == currentKeyIndex && r.totalKeys == |apiKeys|
      ensures r.keyPreview == KeyPreview(apiKey)
    {
      KeyInfo(currentKeyIndex, |apiKeys|, KeyPreview(apiKey))
    }
  }
}
