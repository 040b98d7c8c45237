TestResult.DisplayName,TestResult.Outcome,TestResult.Duration,TestResult.ResourceCount,RandomSeed
Seed.GiSumBounds (correctness),Passed,00:00:00.2123550,684244,0
Seed.GiSumBounds (well-formedness),Passed,00:00:00.1038272,22720,0
