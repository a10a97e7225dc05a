/** The kernel uevent reader of src/core_embedded/usb.rs. A uevent is a
    list of `KEY=VALUE` entries separated by NUL characters; `parse_env`
    returns the value of the first entry for a key, and the listener runs
    the plug script for a USB device that has just been added. Text is a
    sequence of characters; the keys the listener asks for are ASCII, for
    which the source's character and byte positions coincide. Reading the
    netlink socket and running the script are outside the model. */
module Uevent {
  import opened Common

  const NUL: char := '\0'

  /** `str::split('\0')`: the pieces between separators, in order; there is
      always at least one piece, and none contains a separator. */
  function Split(s: string): (r: seq<string>)
    ensures |r| >= 1
    ensures forall k :: 0 <= k < |r| ==> NUL !in r[k]
    decreases |s|
  {
    if |s| == 0 then [""]
    else
      var rest := Split(s[1..]);
      if s[0] == NUL then [""] + rest
      else [[s[0]] + rest[0]] + rest[1..]
  }

  /** The pieces joined back with separators between them. */
  function Join(pieces: seq<string>): string
    requires |pieces| >= 1
    decreases |pieces|
  {
    if |pieces| == 1 then pieces[0] else pieces[0] + [NUL] + Join(pieces[1..])
  }

  /** Splitting loses nothing: the pieces join back to the text. */
  lemma {:induction false} JoinSplit(s: string)
    ensures Join(Split(s)) == s
    decreases |s|
  {
    if |s| > 0 {
      JoinSplit(s[1..]);
      var rest := Split(s[1..]);
      if s[0] == NUL {
        assert Split(s) == [""] + rest;
        assert (([""] + rest)[1..]) == rest;
        assert s == [NUL] + s[1..];
      } else {
        var r := Split(s);
        assert r == [[s[0]] + rest[0]] + rest[1..];
        if |rest| == 1 {
          assert r == [[s[0]] + rest[0]];
          assert s == [s[0]] + s[1..];
        } else {
          assert r[1..] == rest[1..];
          assert Join(rest) == rest[0] + [NUL] + Join(rest[1..]);
          assert s == [s[0]] + s[1..];
        }
      }
    }
  }

  /** Splitting text that starts with a piece free of separators puts that
      piece in front of the first piece of the rest. */
  lemma {:induction false} SplitPrefix(w: string, t: string)
    requires NUL !in w
    ensures Split(w + t) == [w + Split(t)[0]] + Split(t)[1..]
    decreases |w|
  {
    if |w| > 0 {
      SplitPrefix(w[1..], t);
      assert (w + t)[1..] == w[1..] + t;
      assert w[0] != NUL;
      assert [w[0]] + (w[1..] + Split(t)[0]) == w + Split(t)[0];
    } else {
      var r := Split(t);
      assert w + t == t;
      assert w + r[0] == r[0];
      assert r == [r[0]] + r[1..];
    }
  }

  /** Joining pieces free of separators and splitting gives the pieces back. */
  lemma {:induction false} SplitJoin(pieces: seq<string>)
    requires |pieces| >= 1
    requires forall k :: 0 <= k < |pieces| ==> NUL !in pieces[k]
    ensures Split(Join(pieces)) == pieces
    decreases |pieces|
  {
    if |pieces| == 1 {
      SplitPrefix(pieces[0], "");
      assert pieces[0] + "" == pieces[0];
    } else {
      var tail := pieces[1..];
      SplitJoin(tail);
      var t := [NUL] + Join(tail);
      SplitPrefix(pieces[0], t);
      assert pieces[0] + [NUL] + Join(tail) == pieces[0] + t;
      assert t[0] == NUL;
      assert t[1..] == Join(tail);
      assert Split(t) == [""] + tail;
      assert pieces[0] + "" == pieces[0];
      assert pieces == [pieces[0]] + tail;
    }
  }

  /** An entry of the key: it starts with the key immediately followed by
      `=`. */
  predicate IsEntryOf(line: string, key: string)
  {
    |line| > |key| && line[..|key|] == key && line[|key|] == '='
  }

  /** The value of the first entry of the key among `lines`. */
  function FirstValue(lines: seq<string>, key: string): (r: Option<string>)
    ensures r.None? <==> forall k :: 0 <= k < |lines| ==> !IsEntryOf(lines[k], key)
    ensures r.Some? ==>
              exists k :: 0 <= k < |lines| && IsEntryOf(lines[k], key) && r.value == lines[k][|key| + 1..]
                       && forall j :: 0 <= j < k ==> !IsEntryOf(lines[j], key)
    decreases |lines|
  {
    if |lines| == 0 then None
    else if IsEntryOf(lines[0], key) then Some(lines[0][|key| + 1..])
    else
      var r := FirstValue(lines[1..], key);
      assert forall k :: 1 <= k < |lines| ==> lines[k] == lines[1..][k - 1];
      r
  }

  /** `parse_env`. */
  function ParseEnv(uevent: string, key: string): Option<string>
  {
    FirstValue(Split(uevent), key)
  }

  /** In a uevent assembled from entries, the value of a key is that of its
      first entry. */
  lemma ParseEnvOfEntries(entries: seq<string>, key: string, k: nat, value: string)
    requires |entries| >= 1
    requires forall j :: 0 <= j < |entries| ==> NUL !in entries[j]
    requires k < |entries| && entries[k] == key + "=" + value
    requires forall j :: 0 <= j < k ==> !IsEntryOf(entries[j], key)
    ensures ParseEnv(Join(entries), key) == Some(value)
  {
    SplitJoin(entries);
    assert IsEntryOf(entries[k], key) by {
      assert entries[k][..|key|] == key;
      assert entries[k][|key|] == '=';
    }
    var r := FirstValue(entries, key);
    var i :| 0 <= i < |entries| && IsEntryOf(entries[i], key) && r.value == entries[i][|key| + 1..]
                && forall j :: 0 <= j < i ==> !IsEntryOf(entries[j], key);
    assert i == k;
    assert entries[k][|key| + 1..] == value;
  }

  /** A key that is only a prefix of an entry's key does not match it:
      `ACTION` is not found in `ACTIONX=add`. */
  lemma LongerKeyIsNotEntry(key: string, c: char, rest: string)
    requires c != '='
    ensures !IsEntryOf(key + [c] + rest, key)
  {
    assert (key + [c] + rest)[|key|] == c;
  }

  /** The listener's dispatch: the path of the device when the event is the
      addition of a USB device that has a path. */
  function UsbAddPath(uevent: string): (r: Option<string>)
    ensures r.Some? <==>
              && ParseEnv(uevent, "SUBSYSTEM") == Some("usb")
              && ParseEnv(uevent, "DEVTYPE") == Some("usb_device")
              && ParseEnv(uevent, "ACTION") == Some("add")
              && ParseEnv(uevent, "DEVPATH").Some?
    ensures r.Some? ==> r == ParseEnv(uevent, "DEVPATH")
  {
    var subsystem := ParseEnv(uevent, "SUBSYSTEM");
    var devtype := ParseEnv(uevent, "DEVTYPE");
    var action := ParseEnv(uevent, "ACTION");
    var devpath := ParseEnv(uevent, "DEVPATH");
    if subsystem.Some? && devtype.Some? && action.Some? then
      if subsystem.value == "usb" && devtype.value == "usb_device" && action.value == "add" then
        devpath
      else None
    else None
  }
}
