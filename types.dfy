/** The records the workspace passes around (types.ts), as values. */
module Types {
  import opened Wrappers

  /** An open file: `id` is the identity tabs and edits use, `path` the place in the repository. */
  datatype ProjectFile = ProjectFile(id: string, name: string, language: string, content: string, path: string)

  datatype Role = User | Model

  /** A chat message; its `Date` timestamp is not modelled. */
  datatype Message = Message(id: string, role: Role, content: string)

  datatype ItemKind = Blob | Tree

  /** One entry of the host's flat recursive tree listing. */
  datatype GitTreeItem = GitTreeItem(path: string, mode: string, kind: ItemKind, sha: string, size: Option<nat>, url: string)

  /** The fields of a repository record that the workspace reads. */
  datatype GitHubRepo = GitHubRepo(name: string, fullName: string, isPrivate: bool, defaultBranch: string, ownerLogin: string)

  /** A page of the built-in documentation. */
  datatype DocSection = DocSection(id: string, title: string, icon: string, content: string)
}
