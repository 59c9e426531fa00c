/** The cosmetic progress ticker of App.tsx: every tick of the interval moves to
    the next of five status messages and advances the progress towards 98. */
module Ticker {

  const MessageCount: nat := 5
  /** The percentage the ticker never passes on its own. */
  const ProgressCap: int := 98
  const ProgressStep: int := 4

  const QuickMessages: seq<string> := [
    "インテリジェンス・コア 起動...", "視覚的特徴の抽出中...", "国内インフラDB 照合中...",
    "OSINT解析を実行中...", "推定地点を計算中..."]

  const DeepMessages: seq<string> := [
    "高度鑑定エンジン 起動...", "建築構造の検証中...", "植生分布のクロスリファレンス...",
    "インフラ詳細のディープスキャン...", "最終座標を確定中..."]

  /** The list the interval cycles through: the deep list exactly when the deep
      pass is running. */
  function Messages(deep: bool): (r: seq<string>)
    ensures |r| == MessageCount
    ensures (r == DeepMessages) == deep
    ensures !deep ==> r == QuickMessages
  {
    assert QuickMessages[0] != DeepMessages[0];
    if deep then DeepMessages else QuickMessages
  }

  /** `(currentMsgIndex + 1) % messages.length`. */
  function NextIndex(i: nat): (r: nat)
    ensures r < MessageCount
    ensures i + 1 < MessageCount ==> r == i + 1
    ensures i + 1 == MessageCount ==> r == 0
  {
    (i + 1) % MessageCount
  }

  /** `Math.min(prev + 4, 98)`. */
  function NextProgress(p: int): (r: int)
    ensures r <= ProgressCap
    ensures p <= ProgressCap ==> p <= r
    ensures r == p + ProgressStep || r == ProgressCap
  {
    if p + ProgressStep <= ProgressCap then p + ProgressStep else ProgressCap
  }

  /** The progress after `n` ticks starting from `p`. */
  function ProgressAfter(p: int, n: nat): int
    decreases n
  {
    if n == 0 then p else ProgressAfter(NextProgress(p), n - 1)
  }

  /** The message index after `n` ticks starting from `i`. */
  function IndexAfter(i: nat, n: nat): nat
    decreases n
  {
    if n == 0 then i else IndexAfter(NextIndex(i), n - 1)
  }

  /** From any start at or below the cap, `n` ticks add `4 * n` until the cap is
      reached and then stay there: the ticker alone never passes 98. */
  lemma {:induction false} ProgressAfterTicks(p: int, n: nat)
    requires p <= ProgressCap
    ensures ProgressAfter(p, n) == if p + ProgressStep * n <= ProgressCap then p + ProgressStep * n else ProgressCap
    decreases n
  {
    if n > 0 {
      ProgressAfterTicks(NextProgress(p), n - 1);
    }
  }

  /** A fresh interval starts at message 0, so after `n` ticks it shows message
      `n % 5`. */
  lemma {:induction false} IndexAfterTicks(i: nat, n: nat)
    requires i < MessageCount
    ensures IndexAfter(i, n) == (i + n) % MessageCount
    decreases n
  {
    if n > 0 {
      IndexAfterTicks(NextIndex(i), n - 1);
      assert NextIndex(i) + (n - 1) == i + n || NextIndex(i) + (n - 1) == i + n - MessageCount;
    }
  }
}
