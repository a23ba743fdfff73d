/** The approval policy vocabulary shared by the gate and the policy file. */
module Policies {
  import opened Options

  datatype Category =
    | RecursiveRm | DiskDestroy | HistoryRewrite | DbDrop | ForkBomb | SecretEgress
    | PermChange | InlineCode | SecretFileEdit | ExternalTool | MigrateProd | HighRiskOther

  /** The categories gated out of the box, and whenever a default policy would gate nothing. */
  const DEFAULT_GATED: set<Category> :=
    {RecursiveRm, DiskDestroy, HistoryRewrite, DbDrop, ForkBomb, SecretEgress, InlineCode, HighRiskOther}

  datatype PolicyConfig = PolicyConfig(enabled: bool, categories: set<Category>)

  datatype RepoEntry = RepoEntry(config: PolicyConfig, tag: Option<string>)
}
