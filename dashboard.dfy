/**
 * The dashboard's profile: its state before and after the fetch, the row
 * the save sends, and the avatar upload: which files it refuses, the
 * storage path it builds and the avatar it keeps once the file is stored.
 * The link edits on `profileData.links` are those of the `Links` module.
 *
 * The backend's answers (the fetched row, whether the upload succeeded, the
 * public URL) and the signed-in user are parameters; `Date.now()` is the
 * natural number `now`.
 */
module Dashboard {
  import opened Seqs
  import opened JsText
  import opened Links

  datatype Profile = Profile(name: string, username: string, bio: string, avatar: string, links: seq<Link>)

  /** `x || ''` on a column that may be null. */
  function OrEmpty(v: Option<string>): (s: string)
    ensures v.Some? ==> s == v.value
    ensures v.None? ==> s == ""
  {
    v.GetOr("")
  }

  const DefaultName := "Your Name"

  /**
   * The profile before anything is fetched: the signed-in user's name, or
   * "Your Name" when there is no user or the name is empty, and nothing else.
   */
  function InitialProfile(userName: Option<string>): (p: Profile)
    ensures p.name != ""
    ensures userName.Some? && userName.value != "" ==> p.name == userName.value
    ensures userName.None? || userName.value == "" ==> p.name == DefaultName
    ensures p.username == "" && p.bio == "" && p.avatar == "" && p.links == []
  {
    Profile(if userName.Some? && userName.value != "" then userName.value else DefaultName, "", "", "", [])
  }

  /** A `profiles` row as read back; every column may be null. */
  datatype ProfileRow = ProfileRow(name: Option<string>, username: Option<string>, bio: Option<string>,
                                   avatar: Option<string>, links: Option<seq<Link>>)

  /**
   * The profile the fetch sets from a row: each present column as stored,
   * each missing text column "" and missing links [].
   */
  function FromRow(row: ProfileRow): (p: Profile)
    ensures row.name.Some? ==> p.name == row.name.value
    ensures row.username.Some? ==> p.username == row.username.value
    ensures row.bio.Some? ==> p.bio == row.bio.value
    ensures row.avatar.Some? ==> p.avatar == row.avatar.value
    ensures row.links.Some? ==> p.links == row.links.value
    ensures row == ProfileRow(None, None, None, None, None) ==> p == Profile("", "", "", "", [])
  {
    Profile(OrEmpty(row.name), OrEmpty(row.username), OrEmpty(row.bio), OrEmpty(row.avatar), row.links.GetOr([]))
  }

  /** The query's outcome: an error, or the row (null when there is none). */
  datatype FetchResult = FetchFailed | Fetched(row: Option<ProfileRow>)

  /** `fetchProfile`: the state changes only for a signed-in user whose query returns a row. */
  function ApplyFetch(signedIn: bool, p: Profile, res: FetchResult): (r: Profile)
    ensures signedIn && res.Fetched? && res.row.Some? ==> r == FromRow(res.row.value)
    ensures !signedIn || res.FetchFailed? || res == Fetched(None) ==> r == p
  {
    if signedIn && res.Fetched? && res.row.Some? then FromRow(res.row.value) else p
  }

  /** The row `handleSaveProfile` upserts. */
  datatype ProfileUpsert = ProfileUpsert(id: string, name: string, username: string, bio: string, avatar: string, links: seq<Link>)

  function SaveRow(userId: string, p: Profile): (u: ProfileUpsert)
    ensures u.id == userId
  {
    ProfileUpsert(userId, p.name, p.username, p.bio, p.avatar, p.links)
  }

  /** The columns the upsert writes, as they are read back. */
  function StoredRow(u: ProfileUpsert): ProfileRow {
    ProfileRow(Some(u.name), Some(u.username), Some(u.bio), Some(u.avatar), Some(u.links))
  }

  /** Round trip: a saved profile fetched again is the profile that was saved. */
  lemma FetchAfterSave(userId: string, p: Profile)
    ensures FromRow(StoredRow(SaveRow(userId, p))) == p
    ensures ApplyFetch(true, InitialProfile(None), Fetched(Some(StoredRow(SaveRow(userId, p))))) == p
  {
  }

  // ---------------------------------------------------------------------------
  // Avatar upload

  const AllowedTypes: seq<string> := ["image/jpeg", "image/png", "image/gif"]

  /** 5 MiB. */
  const MaxAvatarBytes: nat := 5 * 1024 * 1024

  datatype UploadFile = UploadFile(name: string, mimeType: string, size: nat)

  /** What `handleImageUpload` decides before it talks to storage. */
  datatype UploadCheck = NoFile | InvalidType | TooLarge | Store(path: string)

  /** `${user.id}/${Date.now()}.${fileExt}` with `fileExt = file.name.split('.').pop()`. */
  function StoragePath(userId: string, now: nat, fileName: string): (path: string)
    ensures |path| > |userId| + 1 && path[..|userId| + 1] == userId + "/"
    ensures var ext := LastDotSegment(fileName);
      |path| > |ext| && path[|path| - |ext| - 1..] == "." + ext
  {
    userId + "/" + Decimal(now) + "." + LastDotSegment(fileName)
  }

  /**
   * The guards in order: no file or no user stops silently, then a type
   * other than JPEG, PNG or GIF, then a size above 5 MiB; a file that passes
   * is stored under the user's folder.
   */
  function CheckUpload(file: Option<UploadFile>, user: Option<string>, now: nat): (c: UploadCheck)
    ensures c == NoFile <==> file.None? || user.None?
    ensures c == InvalidType <==> file.Some? && user.Some? && file.value.mimeType !in AllowedTypes
    ensures c == TooLarge <==> file.Some? && user.Some? && file.value.mimeType in AllowedTypes && file.value.size > MaxAvatarBytes
    ensures c.Store? <==> file.Some? && user.Some? && file.value.mimeType in AllowedTypes && file.value.size <= MaxAvatarBytes
    ensures c.Store? ==> c.path == StoragePath(user.value, now, file.value.name)
  {
    if file.None? || user.None? then NoFile
    else if file.value.mimeType !in AllowedTypes then InvalidType
    else if file.value.size > MaxAvatarBytes then TooLarge
    else Store(StoragePath(user.value, now, file.value.name))
  }

  /** The size limit is inclusive: exactly 5 MiB is stored, one byte more is refused. */
  lemma SizeBoundary(name: string, mimeType: string, user: string, now: nat)
    requires mimeType in AllowedTypes
    ensures CheckUpload(Some(UploadFile(name, mimeType, 5242880)), Some(user), now).Store?
    ensures CheckUpload(Some(UploadFile(name, mimeType, 5242881)), Some(user), now) == TooLarge
  {
  }

  /**
   * The storage path splits at its only slash into the user's id and the file
   * name, and the file name is the decimal timestamp, a dot, and the
   * uploaded file's extension, from which the timestamp and the extension
   * read back.
   */
  lemma {:induction false} StoragePathParts(userId: string, now: nat, fileName: string)
    requires '/' !in userId && '/' !in fileName
    ensures var path := StoragePath(userId, now, fileName);
      var parts := Split(path, '/');
      && parts == [userId, Decimal(now) + "." + LastDotSegment(fileName)]
      && LastDotSegment(parts[1]) == LastDotSegment(fileName)
      && DigitsValue(Decimal(now)) == now
  {
    var ext := LastDotSegment(fileName);
    var file := Decimal(now) + "." + ext;
    assert '/' !in ext;
    assert '/' !in Decimal(now);
    assert '/' !in file;
    assert StoragePath(userId, now, fileName) == userId + ['/'] + file;
    SplitAtSep(userId, file, '/');
    SplitWithoutSep(userId, '/');
    SplitWithoutSep(file, '/');
    LastDotSegmentOf(Decimal(now), ext);
    DecimalValue(now);
  }

  /** The avatar after an upload: the public URL, once the file is stored and the URL is non-empty. */
  function AvatarAfterUpload(p: Profile, check: UploadCheck, uploaded: bool, publicUrl: Option<string>): (r: Profile)
    ensures r == p.(avatar := r.avatar)
    ensures r.avatar != p.avatar ==> check.Store? && uploaded && publicUrl == Some(r.avatar) && r.avatar != ""
    ensures check.Store? && uploaded && publicUrl.Some? && publicUrl.value != "" ==> r.avatar == publicUrl.value
  {
    if check.Store? && uploaded && publicUrl.Some? && publicUrl.value != "" then p.(avatar := publicUrl.value) else p
  }

  /** A refused file never changes the profile, whatever storage answers. */
  lemma RefusedUploadKeepsProfile(p: Profile, file: Option<UploadFile>, user: Option<string>, now: nat, uploaded: bool, publicUrl: Option<string>)
    requires file.Some? && file.value.mimeType !in AllowedTypes
    ensures AvatarAfterUpload(p, CheckUpload(file, user, now), uploaded, publicUrl) == p
  {
  }
}
