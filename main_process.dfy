/** The main process's choice of profile: the `--profile=<name>` command
    line argument selects the directory the jobs file and the cache live
    in, and without a usable one the profile is 'default'. */
module MainProcess {
  import opened Base
  import opened Lists

  const DefaultProfile: string := "default"
  const ProfileFlag: string := "--profile="

  /** `entry.startsWith('--profile=')`. */
  predicate IsProfileArg(entry: string) {
    StartsWith(entry, ProfileFlag)
  }

  /** `arg.split('=')[1]`: the second piece, absent when there is no '='. */
  function SecondPiece(arg: string): (r: Option<string>)
    ensures r.Some? ==> forall i :: 0 <= i < |r.value| ==> r.value[i] != '='
  {
    var parts := Split(arg, '=');
    if |parts| >= 2 then Some(parts[1]) else None
  }

  /** `getProfileName`: `argv` is `process.argv`. The first profile argument
      is used; the profile is its trimmed value, or 'default' when there is
      none or the value is empty or blank. */
  function ProfileName(argv: seq<string>): (r: string)
    ensures r != ""
    ensures (forall k :: 0 <= k < |argv| ==> !IsProfileArg(argv[k])) ==> r == DefaultProfile
    ensures r == DefaultProfile || (Trim(r) == r && exists k :: 0 <= k < |argv| && IsProfileArg(argv[k]))
  {
    FindFirst(argv, IsProfileArg);
    match Find(argv, IsProfileArg)
    case None => DefaultProfile
    case Some(arg) =>
      var value := SecondPiece(arg);
      if value.Some? && Trim(value.value) != "" then
        TrimIdempotent(value.value);
        Trim(value.value)
      else DefaultProfile
  }

  /** When the first profile argument is `--profile=` followed by v and then
      nothing or a further '=', the profile is v trimmed, or 'default' when
      v is blank: later profile arguments are ignored. */
  lemma ProfileNameOf(argv: seq<string>, i: nat, v: string, rest: string)
    requires i < |argv| && forall k :: 0 <= k < i ==> !IsProfileArg(argv[k])
    requires argv[i] == ProfileFlag + v + rest
    requires forall k :: 0 <= k < |v| ==> v[k] != '='
    requires rest == [] || rest[0] == '='
    ensures ProfileName(argv) == if Trim(v) == "" then DefaultProfile else Trim(v)
  {
    assert IsProfileArg(argv[i]) by {
      assert argv[i][..|ProfileFlag|] == ProfileFlag;
    }
    FindFirst(argv, IsProfileArg);
    var j :| 0 <= j < |argv| && argv[j] == Find(argv, IsProfileArg).value
      && forall k :: 0 <= k < j ==> !IsProfileArg(argv[k]);
    assert j == i;
    var flag := "--profile";
    assert argv[i] == flag + ['='] + (v + rest);
    SplitAfterFirst(flag, '=', v + rest);
    if rest == [] {
      assert v + rest == v;
      SplitWithoutSep(v, '=');
    } else {
      assert v + rest == v + ['='] + rest[1..];
      SplitAfterFirst(v, '=', rest[1..]);
    }
    assert SecondPiece(argv[i]) == Some(v);
  }
}
