/** Where stored content goes: one folder per content type below the
    content root (`CONTENT_FOLDERS` and `get_final_directory`). The root
    is `CONTENT_BASE_DIR`, read from the environment; here it is a
    parameter. */
module ContentLayout {
  import opened Paths
  import opened Disk
  import opened Wrappers

  const ContentFolders: map<string, string> := map[
    "backgrounds" := "backgrounds",
    "colors" := "colors",
    "generator" := "generator",
    "highways" := "highways",
    "songs" := "songs",
    "temp" := "temp"
  ]

  /** `CONTENT_FOLDERS.get(content_type, content_type)`. */
  function Subfolder(contentType: string): string {
    if contentType in ContentFolders then ContentFolders[contentType] else contentType
  }

  /** The folder table maps every known type to itself, so the subfolder
      is always the content type. */
  lemma SubfolderIsType(contentType: string)
    ensures Subfolder(contentType) == contentType
  {
  }

  /** `CONTENT_BASE_DIR / subfolder`. */
  function FinalDirectory(base: Path, contentType: string): Path {
    Join(base, Subfolder(contentType))
  }

  /** A plain content type names one folder directly below the root. */
  lemma FinalDirectoryLayout(base: Path, contentType: string)
    requires IsComponent(contentType)
    ensures FinalDirectory(base, contentType) == base + [contentType]
  {
    SubfolderIsType(contentType);
    JoinComponent(base, contentType);
  }

  /** `get_final_directory(content_type)`, whose `mkdir` raises when a
      file stands in the way; `None` is that exception. */
  function GetFinalDirectory(fs: Files, base: Path, contentType: string): (r: Option<Path>)
    ensures r.Some? <==> !Blocked(fs, FinalDirectory(base, contentType))
    ensures r.Some? ==> r.value == Join(base, contentType)
  {
    SubfolderIsType(contentType);
    if Blocked(fs, FinalDirectory(base, contentType)) then None else Some(FinalDirectory(base, contentType))
  }
}
