/** How free text becomes a connection state, and what counts as a devpath or a
    key: laws on the text itself. */
module ConnStates {
  import opened Text
  import opened DeviceListing

  // ---------------------------------------------------------------------
  // Free-text states
  // ---------------------------------------------------------------------

  lemma LowerConcat(a: string, b: string)
    ensures Lower(a + b) == Lower(a) + Lower(b)
  {
  }

  /** A text whose ends are not white space keeps its place when trimmed. */
  lemma {:induction false} TrimLeftKeeps(a: string, core: string)
    requires core != "" && !IsSpace(core[0])
    ensures exists a' :: TrimLeft(a + core) == a' + core
    decreases |a|
  {
    hide IsSpace;
    if a == [] {
      assert a + core == core;
      assert TrimLeft(a + core) == [] + core;
    } else if IsSpace(a[0]) {
      assert (a + core)[1..] == a[1..] + core;
      TrimLeftKeeps(a[1..], core);
    } else {
      assert TrimLeft(a + core) == a + core;
    }
  }

  lemma {:induction false} TrimRightKeeps(core: string, b: string)
    requires core != "" && !IsSpace(core[|core| - 1])
    ensures TrimRight(core + b) == core + TrimRight(b)
    decreases |b|
  {
    hide IsSpace;
    if b == [] {
      assert core + b == core;
      assert core + TrimRight(b) == core;
    } else if IsSpace(b[|b| - 1]) {
      var k := |b| - 1;
      assert (core + b)[..|core| + k] == core + b[..k];
      TrimRightKeeps(core, b[..k]);
    } else {
      assert TrimRight(core + b) == core + b;
    }
  }

  lemma TrimKeeps(a: string, core: string, b: string) returns (a': string)
    requires core != "" && !IsSpace(core[0]) && !IsSpace(core[|core| - 1])
    ensures TrimSpace(a + core + b) == a' + core + TrimRight(b)
  {
    hide IsSpace, TrimLeft, TrimRight;
    var tail := core + b;
    assert a + core + b == a + tail && tail[0] == core[0];
    TrimLeftKeeps(a, tail);
    a' :| TrimLeft(a + tail) == a' + tail;
    var front := a' + core;
    assert a' + tail == front + b && front[|front| - 1] == core[|core| - 1];
    TrimRightKeeps(front, b);
  }

  lemma {:induction false} ContainsAt(a: string, part: string, b: string)
    ensures Contains(a + part + b, part)
    decreases |a|
  {
    if a == [] {
      assert a + part + b == part + b;
    } else {
      assert (a + part + b)[1..] == a[1..] + part + b;
      ContainsAt(a[1..], part, b);
    }
  }

  lemma {:induction false} ContainsMeans(s: string, part: string)
    ensures Contains(s, part) ==> exists i :: 0 <= i <= |s| && part <= s[i..]
    decreases |s|
  {
    if Contains(s, part) {
      if part <= s {
        assert s[0..] == s;
      } else {
        ContainsMeans(s[1..], part);
        var i :| 0 <= i <= |s[1..]| && part <= s[1..][i..];
        assert s[1..][i..] == s[i + 1..];
      }
    }
  }

  /** A text that speaks of a permission is the udev problem, whatever stands before
      or after the word. */
  lemma PermissionText(before: string, after: string)
    ensures ParseConnState(before + "permission" + after) == "no_permissions"
  {
    var core := "permission";
    assert !IsSpace(core[0]) && !IsSpace(core[9]) && Lower(core) == core;
    var a := TrimKeeps(before, core, after);
    var b := TrimRight(after);
    LowerConcat(a + core, b);
    LowerConcat(a, core);
    var s := Lower(TrimSpace(before + core + after));
    assert s == Lower(a) + core + Lower(b);
    ContainsAt(Lower(a), core, Lower(b));
    PermissionWord(s);
    hide Contains, Lower, TrimSpace;
  }

  /** Of the vocabulary, only no_permissions speaks of one. */
  lemma PermissionWord(s: string)
    requires Contains(s, "permission")
    ensures s in VOCABULARY ==> s == "no_permissions"
    ensures s != ""
  {
    ContainsMeans(s, "permission");
    var i :| 0 <= i <= |s| && "permission" <= s[i..];
    assert s[i..][0] == 'p' && s[i..][3] == 'm';
    assert s[i] == 'p' && s[i + 3] == 'm' && i + 10 <= |s|;
    hide Contains;
    OnlyPermissions(s, i);
  }

  /** The one word that has a p with an m three letters on, and room for the rest. */
  lemma OnlyPermissions(s: string, i: nat)
    requires i + 10 <= |s| && s[i] == 'p' && s[i + 3] == 'm'
    ensures s in VOCABULARY ==> s == "no_permissions"
  {
    if s in VOCABULARY {
      var k: nat :| k < |VOCABULARY| && VOCABULARY[k] == s;
      assert |s| >= 10;
      assert k in {2, 3, 4, 6, 7};
    }
  }

  /** A text that begins with one of these three words, and speaks of no permission,
      is that state. */
  lemma PrefixText(word: string, after: string)
    requires word in {"unauthorized", "authorizing", "connecting"}
    requires !Contains(Lower(TrimRight(after)), "permission")
    ensures ParseConnState(word + after) == word
  {
    hide Contains, Lower, Text.TrimSpace, Text.TrimRight;
    var rest := Lower(TrimRight(after));
    PrefixTrimmed(word, after);
    PlainWord(word);
    NoStraddle(word, rest);
    LongerWord(word, rest);
  }

  lemma PlainWord(word: string)
    requires word in {"unauthorized", "authorizing", "connecting"}
    ensures !IsSpace(word[0]) && !IsSpace(word[|word| - 1]) && Lower(word) == word && 'p' !in word
  {
  }

  lemma PrefixTrimmed(word: string, after: string)
    requires word in {"unauthorized", "authorizing", "connecting"}
    ensures Lower(TrimSpace(word + after)) == word + Lower(TrimRight(after))
  {
    PlainWord(word);
    hide IsSpace, Lower;
    TrimRightKeeps(word, after);
    assert (word + after)[0] == word[0];
    assert TrimLeft(word + after) == word + after;
    LowerConcat(word, TrimRight(after));
  }

  /** The word has no p, so a permission would have to stand after it. */
  lemma NoStraddle(word: string, rest: string)
    requires 'p' !in word && !Contains(rest, "permission")
    ensures !Contains(word + rest, "permission")
    decreases |word|
  {
    if word == [] {
      assert word + rest == rest;
    } else {
      assert (word + rest)[0] == word[0];
      assert (word + rest)[1..] == word[1..] + rest;
      NoStraddle(word[1..], rest);
    }
  }

  /** No word of the vocabulary goes on after one of the three. */
  lemma LongerWord(word: string, rest: string)
    requires word in {"unauthorized", "authorizing", "connecting"}
    ensures word + rest in VOCABULARY ==> word + rest == word
    ensures word == "authorizing" ==> !("unauthorized" <= word + rest)
    ensures word == "connecting" ==> !("unauthorized" <= word + rest) && !("authorizing" <= word + rest)
  {
    var s := word + rest;
    assert s[0] == word[0] && s[1] == word[1] && s[2] == word[2];
    assert "unauthorized"[0] == 'u' && "authorizing"[0] == 'a';
    if rest != [] {
      assert |s| > |word| && s[2] == word[2];
    } else {
      assert s == word;
    }
  }

  /** Any other text says nothing. */
  lemma OtherText(raw: string)
    requires var s := Lower(TrimSpace(raw));
             && s !in VOCABULARY && !Contains(s, "permission")
             && !("unauthorized" <= s) && !("authorizing" <= s) && !("connecting" <= s)
    ensures ParseConnState(raw) == "unknown"
  {
    hide Contains, Lower, TrimSpace;
  }

  // ---------------------------------------------------------------------
  // Devpaths and keys, a character at a time
  // ---------------------------------------------------------------------

  /** "usb:", one letter or digit, and then letters, digits, dots, underscores and
      dashes, 128 characters in all. */
  lemma DevpathGrows(x: string, c: char)
    ensures IsDevpath("usb:" + [c]) <==> '0' <= c <= '9' || 'A' <= c <= 'Z' || 'a' <= c <= 'z'
    ensures x != "" ==>
              (IsDevpath("usb:" + (x + [c])) <==>
                 && IsDevpath("usb:" + x) && |x| <= 123
                 && ('0' <= c <= '9' || 'A' <= c <= 'Z' || 'a' <= c <= 'z' || c == '.' || c == '_' || c == '-'))
    ensures !IsDevpath("usb:") && (IsDevpath(x) ==> "usb:" <= x)
  {
    var p, q := "usb:" + x, "usb:" + (x + [c]);
    assert ("usb:" + [c])[..4] == "usb:" && p[..4] == "usb:" && q[..4] == "usb:";
    assert q == p + [c];
    if x != "" {
      assert forall i :: 0 <= i < |p| ==> q[i] == p[i];
      assert q[|p|] == c;
    }
  }

  /** A lower-case letter, and then lower-case letters, digits and underscores. */
  lemma KeyGrows(k: string, c: char)
    ensures !IsExtraKey("") && (IsExtraKey([c]) <==> 'a' <= c <= 'z')
    ensures k != "" ==> (IsExtraKey(k + [c]) <==> IsExtraKey(k) && ('a' <= c <= 'z' || '0' <= c <= '9' || c == '_'))
  {
    if k != "" {
      assert forall i :: 0 <= i < |k| ==> (k + [c])[i] == k[i];
      assert (k + [c])[|k|] == c;
    }
  }
}
