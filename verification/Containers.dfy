/** The container row, as far as the stack reads and writes it. */
module Containers {
  import opened Commits
  import StackSync

  datatype Status = Running | InConflict | HasDrifted | Other

  /** The columns of a container row that the stack reads or writes. */
  datatype Container = Container(id: string, branch: string, parentContainerId: string,
                                 parentBranch: string, baseSHA: CommitId, status: Status)
  {
    function Target(): StackSync.Target {
      StackSync.Target.Target(branch, parentBranch, baseSHA)
    }
  }
}
