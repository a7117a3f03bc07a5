/**
 Image references `name[:version]` as dockerlib's `joinVersion` builds them
 (index.js:27-32). Its version argument is untyped; only a non-empty string
 counts as a version.
 */
module ImageRef {
  import opened Text

  /** What the caller passed as a version: nothing, a string, or a value of another type. */
  datatype Version = Absent | Str(s: string) | NonString

  predicate IsTagged(v: Version) {
    v.Str? && |v.s| > 0
  }

  /** The reference of image `name` at `version`. */
  function JoinVersion(name: string, version: Version): string
  {
    if version.Str? && |version.s| > 0 then name + ":" + version.s else name
  }

  /** Splits a reference at its last colon into repository and tag. */
  function SplitTag(ref: string): (string, string)
  {
    match LastIndexOf(ref, ':')
    case Some(k) => (ref[..k], ref[k + 1..])
    case None => (ref, "")
  }

  /**
   A version without a colon can be read back from the reference, and so can
   the name: tags in a reference never contain a colon.
   */
  lemma JoinVersionSplit(name: string, version: Version)
    requires IsTagged(version) && ':' !in version.s
    ensures SplitTag(JoinVersion(name, version)) == (name, version.s)
  {
    var ref := JoinVersion(name, version);
    assert ref == name + [':'] + version.s;
    LastIndexOfJoined(name, ':', version.s);
    assert ref[..|name|] == name;
    assert ref[|name| + 1..] == version.s;
  }

  /**
   Without a version the reference is the name itself, colons included
   (`localhost:5000/app` stays as it is); a colon-free one splits into the
   name and an empty tag.
   */
  lemma JoinVersionUntagged(name: string, version: Version)
    requires !IsTagged(version)
    ensures JoinVersion(name, version) == name
    ensures ':' !in name ==> SplitTag(JoinVersion(name, version)) == (name, "")
  {
  }
}
