/**
 * getCookie (blog/static/blog/js/script.js), which reads the CSRF token
 * the Ajax requests send back: the cookie header is split on ';', each
 * entry is stripped, and the first entry that begins with the name and
 * '=' gives its remainder, URI-decoded. URI decoding is a parameter.
 */
module Cookies {
  import opened Wrappers
  import opened Text

  /** Each entry of the header with whitespace stripped at both ends. */
  function Stripped(entries: seq<string>): (r: seq<string>)
    ensures |r| == |entries|
    ensures forall i | 0 <= i < |r| :: r[i] == Trim(entries[i])
  {
    seq(|entries|, i requires 0 <= i < |entries| => Trim(entries[i]))
  }

  /** A stripped entry starts with `name=`. */
  predicate Names(entry: string, name: string) {
    name + "=" <= entry
  }

  /** No entry names `name`. */
  predicate NoneNamed(entries: seq<string>, name: string) {
    forall j | 0 <= j < |entries| :: !Names(entries[j], name)
  }

  /** The position of the first entry naming `name`, or the number of
      entries when none does. */
  function FirstNamed(entries: seq<string>, name: string): (i: nat)
    ensures i <= |entries|
    ensures NoneNamed(entries[..i], name)
    ensures i < |entries| ==> Names(entries[i], name)
  {
    if entries == [] then 0
    else if Names(entries[0], name) then 0
    else
      var i := FirstNamed(entries[1..], name);
      assert entries[..1 + i] == [entries[0]] + entries[1..][..i];
      1 + i
  }

  /** The undecoded value getCookie finds for `name` in the header: none
      for an empty header or when no stripped entry names it; otherwise
      what follows `name=` in the first stripped entry that does. */
  function RawValue(cookie: string, name: string): (v: Option<string>)
    ensures v.None? <==> cookie == [] || NoneNamed(Stripped(Split(cookie, ';')), name)
    ensures v.Some? ==> var entries := Stripped(Split(cookie, ';'));
                        exists j | 0 <= j < |entries| ::
                          && NoneNamed(entries[..j], name)
                          && entries[j] == name + "=" + v.value
  {
    if cookie == [] then None
    else
      var entries := Stripped(Split(cookie, ';'));
      var i := FirstNamed(entries, name);
      if i == |entries| then
        assert entries[..i] == entries;
        None
      else
        assert !NoneNamed(entries, name);
        PrefixRest(name + "=", entries[i]);
        Some(entries[i][|name| + 1..])
  }

  lemma PrefixRest(p: string, s: string)
    requires p <= s
    ensures s == p + s[|p|..]
  {
  }

  /** getCookie, with `decode` standing for decodeURIComponent. */
  method GetCookie(cookie: string, name: string, decode: string -> string) returns (value: Option<string>)
    ensures RawValue(cookie, name).None? ==> value == None
    ensures RawValue(cookie, name).Some? ==> value == Some(decode(RawValue(cookie, name).value))
  {
    value := None;
    if cookie != [] {
      var cookies := Split(cookie, ';');
      ghost var entries := Stripped(cookies);
      var i := 0;
      while i < |cookies|
        invariant i <= |cookies|
        invariant NoneNamed(entries[..i], name)
        invariant value == None
      {
        var entry := Trim(cookies[i]);
        if name + "=" <= entry {
          value := Some(decode(entry[|name| + 1..]));
          FoundAt(cookie, name, i);
          return;
        }
        NoneNamedExtend(entries, name, i);
        i := i + 1;
      }
      assert entries[..i] == entries;
    }
  }

  /** When the entry at `i` is the first naming `name`, RawValue takes it. */
  lemma FoundAt(cookie: string, name: string, i: nat)
    requires cookie != []
    requires var entries := Stripped(Split(cookie, ';'));
             i < |entries| && NoneNamed(entries[..i], name) && Names(entries[i], name)
    ensures RawValue(cookie, name) == Some(Stripped(Split(cookie, ';'))[i][|name| + 1..])
  {
    FirstNamedIs(Stripped(Split(cookie, ';')), name, i);
  }

  lemma NoneNamedExtend(entries: seq<string>, name: string, i: nat)
    requires i < |entries| && NoneNamed(entries[..i], name) && !Names(entries[i], name)
    ensures NoneNamed(entries[..i + 1], name)
  {
    assert entries[..i + 1] == entries[..i] + [entries[i]];
  }

  /** FirstNamed is the first naming entry: any naming entry with none
      before it is the one it finds. */
  lemma {:induction false} FirstNamedIs(entries: seq<string>, name: string, i: nat)
    requires i < |entries| && Names(entries[i], name)
    requires NoneNamed(entries[..i], name)
    ensures FirstNamed(entries, name) == i
  {
    if i > 0 {
      assert !Names(entries[..i][0], name);
      assert entries[1..][..i - 1] == entries[..i][1..];
      FirstNamedIs(entries[1..], name, i - 1);
    }
  }

  /** A header holding one cookie: text without ';' splits into itself. */
  lemma SplitWithout(s: string, c: char)
    requires c !in s
    ensures Split(s, c) == [s]
  {
    SplitJoin([s], c);
  }

  /** A header of a single `name=value` entry, with no ';' and no
      whitespace at either end, gives that value back. */
  lemma SingleCookie(name: string, value: string)
    requires ';' !in name + "=" + value
    requires name != [] && !IsSpace(name[0])
    requires value == [] || !IsSpace(value[|value| - 1])
    ensures RawValue(name + "=" + value, name) == Some(value)
  {
    var cookie := name + "=" + value;
    SplitWithout(cookie, ';');
    TrimNoEdgeSpaces(cookie);
    assert name + "=" <= cookie;
    assert cookie[|name| + 1..] == value;
    FirstNamedIs([cookie], name, 0);
    assert Stripped([cookie]) == [cookie];
  }

  /** A name that is a proper prefix of the stored cookie's name does not
      find it: looking up "csrf" in `csrftoken=…` gives nothing. */
  lemma LongerNameIsNotFound(name: string, stored: string, value: string)
    requires ';' !in stored + "=" + value
    requires |stored| > |name| && stored[..|name|] == name && stored[|name|] != '='
    requires !IsSpace(stored[0])
    requires value == [] || !IsSpace(value[|value| - 1])
    ensures RawValue(stored + "=" + value, name) == None
  {
    var cookie := stored + "=" + value;
    SplitWithout(cookie, ';');
    TrimNoEdgeSpaces(cookie);
    assert cookie[|name|] == stored[|name|];
    assert (name + "=")[|name|] != cookie[|name|];
  }

  /** When two entries name the cookie, the first one wins, whatever the
      second holds. */
  lemma FirstEntryWins(name: string, value: string, second: string)
    requires ';' !in name + "=" + value && ';' !in second
    requires name != [] && !IsSpace(name[0])
    requires value == [] || !IsSpace(value[|value| - 1])
    ensures RawValue(name + "=" + value + ";" + second, name) == Some(value)
  {
    var first := name + "=" + value;
    var cookie := first + ";" + second;
    assert Join([first, second], [';']) == cookie;
    SplitJoin([first, second], ';');
    TrimNoEdgeSpaces(first);
    var entries := Stripped([first, second]);
    assert entries[0] == first;
    FirstNamedIs(entries, name, 0);
    assert first[|name| + 1..] == value;
  }
}
