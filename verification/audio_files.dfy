/**
 Location of recorded audio (Waynote/Models/AudioFiles.swift): every audio
 file lives directly in the "AudioFiles" folder of the app's documents
 directory. Reading `baseURL` also creates that folder; the file system is
 reduced to the set of directories that exist.
 */
module AudioFiles {

  /** A file URL: the documents directory, or a URL with one more path component. */
  datatype Url = DocumentsDirectory | Appending(base: Url, component: string)

  const DirectoryName: string := "AudioFiles"

  /** `baseURL`, without its side effect: documents directory / "AudioFiles". */
  function BaseUrl(): Url {
    Appending(DocumentsDirectory, DirectoryName)
  }

  /** `url(for:)`: the audio folder / `fileName`. */
  function UrlFor(fileName: string): Url {
    Appending(BaseUrl(), fileName)
  }

  /** The URL together with every directory above it. */
  function WithAncestors(u: Url): (r: set<Url>)
    ensures u in r && DocumentsDirectory in r
  {
    match u
    case DocumentsDirectory => {DocumentsDirectory}
    case Appending(b, _) => {u} + WithAncestors(b)
  }

  /** What reading `baseURL` does: the URL, the directories afterwards, and
      whether an error was logged. */
  datatype BaseUrlAccess = BaseUrlAccess(url: Url, directories: set<Url>, errorLogged: bool)

  /** Reading `baseURL` with `dirs` existing: `createDirectory` with
      intermediate directories either succeeds, after which the folder and
      every directory above it exist, or fails, which is logged and changes
      nothing; the URL is returned either way. */
  function AccessBaseUrl(dirs: set<Url>, createSucceeds: bool): (r: BaseUrlAccess)
    ensures r.url == BaseUrl()
    ensures createSucceeds ==>
              (&& !r.errorLogged && dirs <= r.directories
               && BaseUrl() in r.directories && DocumentsDirectory in r.directories
               && r.directories - dirs <= {BaseUrl(), DocumentsDirectory})
    ensures !createSucceeds ==> r.errorLogged && r.directories == dirs
  {
    if createSucceeds then BaseUrlAccess(BaseUrl(), dirs + WithAncestors(BaseUrl()), false)
    else BaseUrlAccess(BaseUrl(), dirs, true)
  }

  /** Creating with intermediate directories is idempotent: a second
      successful read of `baseURL` finds nothing left to create. */
  lemma AccessBaseUrlIdempotent(dirs: set<Url>)
    ensures AccessBaseUrl(AccessBaseUrl(dirs, true).directories, true)
      == AccessBaseUrl(dirs, true)
  {
  }

  /** `url(for:)` depends on the file name alone: every audio URL sits directly
      in the audio folder, and different names give different URLs. */
  lemma UrlForInjective(f: string, g: string)
    ensures UrlFor(f).Appending? && UrlFor(f).base == BaseUrl()
    ensures UrlFor(f) == UrlFor(g) <==> f == g
  {
  }
}
