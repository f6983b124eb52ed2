/** The saved interview record and the name of the file it is written to. */
module Persistence {
  import opened Wrappers
  import opened Text
  import opened Dialogue

  /** The record written at the end of an interview. */
  datatype InterviewRecord = InterviewRecord(
    candidateName: Option<string>,
    position: Option<string>,
    date: string,
    conversation: seq<Entry>)

  const FilePrefix := "interview_"
  const FileSuffix := ".json"

  /** The name as it appears in the file name: lower-cased, then every space
      replaced by an underscore. */
  function Slug(name: string): (r: string)
    ensures |r| == |name|
    ensures forall i :: 0 <= i < |r| ==> r[i] != ' ' && !('A' <= r[i] <= 'Z')
    ensures forall i :: 0 <= i < |r| && name[i] != ' ' ==> r[i] == LowerChar(name[i])
    ensures forall i :: 0 <= i < |r| && name[i] == ' ' ==> r[i] == '_'
  {
    var lower := Lower(name);
    seq(|lower|, i requires 0 <= i < |lower| => if lower[i] == ' ' then '_' else lower[i])
  }

  /** The file name for a record saved at the time `stamp` (already
      formatted). With no name the expression fails, and no name is
      produced. */
  function FileName(name: Option<string>, stamp: string): (r: Option<string>)
    ensures r.Some? <==> name.Some?
  {
    match name
    case None => None
    case Some(n) => Some(FilePrefix + Slug(n) + "_" + stamp + FileSuffix)
  }

  /** A file name starts with the prefix, has an underscore between the
      name part and the stamp, ends with the suffix, and is as long as its
      parts put together. */
  lemma FileNameShape(name: string, stamp: string)
    ensures var f := FileName(Some(name), stamp).value;
      && |f| == |FilePrefix| + |name| + 1 + |stamp| + |FileSuffix|
      && FilePrefix <= f && f[|f| - |FileSuffix|..] == FileSuffix
      && f[|FilePrefix| + |name|] == '_'
  {
    var f := FileName(Some(name), stamp).value;
    assert f == FilePrefix + (Slug(name) + "_" + stamp + FileSuffix);
    assert f[|f| - |FileSuffix|..] == FileSuffix;
  }

  /** The part of a file name that holds the time stamp, for a name of the
      given length. */
  function StampOf(fileName: string, nameLength: nat): string
    requires |FilePrefix| + nameLength + 1 + |FileSuffix| <= |fileName|
  {
    fileName[|FilePrefix| + nameLength + 1 .. |fileName| - |FileSuffix|]
  }

  /** The part of a file name that holds the slug of the name. */
  function SlugOf(fileName: string, nameLength: nat): string
    requires |FilePrefix| + nameLength <= |fileName|
  {
    fileName[|FilePrefix| .. |FilePrefix| + nameLength]
  }

  /** The file name gives back both the slug and the time stamp it was made
      from. */
  lemma FileNameRoundTrip(name: string, stamp: string)
    ensures var f := FileName(Some(name), stamp).value;
      SlugOf(f, |name|) == Slug(name) && StampOf(f, |name|) == stamp
  {
    var f := FileName(Some(name), stamp).value;
    assert f == FilePrefix + Slug(name) + "_" + stamp + FileSuffix;
    assert f[|FilePrefix| .. |FilePrefix| + |name|] == Slug(name);
    assert f[|FilePrefix| + |name| + 1 .. |f| - |FileSuffix|] == stamp;
  }

  /** Stamps of one fixed width (as a `strftime` pattern gives) keep files
      apart: equal file names come from equal slugs and equal stamps. */
  lemma FileNameDeterminesSlugAndStamp(n1: string, s1: string, n2: string, s2: string)
    requires |s1| == |s2|
    requires FileName(Some(n1), s1) == FileName(Some(n2), s2)
    ensures Slug(n1) == Slug(n2) && s1 == s2
  {
    FileNameRoundTrip(n1, s1);
    FileNameRoundTrip(n2, s2);
  }

  /** Names differing only in letter case or in spaces versus underscores
      share a file name when saved at the same second. */
  lemma CaseAndSpacesCollide(stamp: string)
    ensures FileName(Some("Alex Smith"), stamp) == FileName(Some("alex_smith"), stamp)
  {
    assert Slug("Alex Smith") == Slug("alex_smith");
  }
}
